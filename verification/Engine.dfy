/**
 Whole runs of one session: decisions written back to it, outcomes recorded between any two
 steps, turns that change strategy, and the session expiring or being evicted at any time.
 */
module Engine {
  import opened Wrappers
  import opened Catalogs
  import opened Selection
  import opened Sessions
  import opened Strategies
  import opened Matrix

  datatype Runner = Plain(s: Strategy) | WithMatrix(s: Strategy, options: Options)

  datatype Decision = Decision(outcome: Outcome, strategy: string, turnIndex: int, decidedAt: real)

  function RunnerDecide(runner: Runner, c: Catalog, answers: Option<Answers>, r: Request): Result<Outcome, SetupIncomplete>
    requires runner.s.policy.labels != [] && UniqueLabels(runner.s.policy.labels)
  {
    match runner
    case Plain(s) => Decide(s, c, r)
    case WithMatrix(s, options) => MatrixDecide(s, options, answers, c, r)
  }

  /** The strategy and the request a runner hands to the policy: a matrix picks a label and an ordering first. */
  function Asked(runner: Runner, answers: Option<Answers>, r: Request): (asked: (Strategy, Request))
    requires runner.s.policy.labels != []
    ensures asked.0.name == runner.s.name && asked.0.round == runner.s.round
    ensures asked.0.policy == runner.s.policy.(selection := asked.0.policy.selection)
    ensures asked.1 == r.(facts := r.facts.(routeLabel := asked.1.facts.routeLabel))
  {
    if runner.Plain? || r.manual.Some? || (r.session.Some? && runner.s.policy.mode.Cached?) then (runner.s, r)
    else
      var pick := Picked(runner.options, answers);
      (Reordered(runner.s, pick), r.(facts := r.facts.(routeLabel := Some(PickedLabel(runner.s, pick)))))
  }

  /** Once some model is eligible, a runner decides what the policy decides, and only the reason tells them apart. */
  lemma RunnerAsks(runner: Runner, c: Catalog, answers: Option<Answers>, r: Request)
    requires runner.s.policy.labels != [] && UniqueLabels(runner.s.policy.labels) && Candidates(runner.s.policy, c) != []
    ensures var decided := RunnerDecide(runner, c, answers, r);
      var asked := Decide(Asked(runner, answers, r).0, c, Asked(runner, answers, r).1);
      && (decided.Err? <==> asked.Err?)
      && (decided.Ok? ==> decided.value == asked.value.(reason := decided.value.reason))
  {
  }

  ghost predicate RunnerOk(runner: Runner) {
    && runner.s.policy.labels != [] && UniqueLabels(runner.s.policy.labels)
    && (runner.WithMatrix? ==> OptionsOk(runner.options, runner.s.policy.labels))
  }

  // Writing decisions and outcomes back

  /** The session a first decision creates, before that decision is applied to it. */
  function NewSession(id: string, d: Decision, now: real): Session {
    Session(id, d.outcome.model, d.outcome.tier, Some(d.outcome.defaulted), None, now, now, None, 0, 0, now, 0, 0, 0, 0.0, [])
  }

  function Largest(a: int, b: int): int {
    if a > b then a else b
  }

  function Persisted(session: Session, d: Decision, now: real): Session {
    var o := d.outcome;
    var switched :=
      if o.switchedFrom.None? then session
      else RecordEvent(
        session.(switchCount := session.switchCount + 1, switchedAtTurn := d.turnIndex, switchedAt := now),
        Switched(o.switchedFrom.value, o.model, o.reason, d.turnIndex));
    RecordEvent(
      switched.(
        route := o.model, tier := o.tier, defaulted := Some(o.defaulted), strategy := Some(d.strategy),
        turnCount := Largest(Largest(session.turnCount, d.turnIndex), 1), updatedAt := now),
      Decided(o.model, o.reason, d.turnIndex))
  }

  function WithOutcome(session: Session, ok: bool, truncated: bool, cost: real, now: real): Session {
    session.(
      failures := if ok then 0 else session.failures + 1,
      truncations := if !ok then session.truncations else if truncated then session.truncations + 1 else 0,
      cost := session.cost + cost,
      updatedAt := now)
  }

  // Runs

  /** One committed switch: whether a quality reason drove it, its turn, and when it was decided and written. */
  datatype Switch = Switch(quality: bool, turn: int, decidedAt: real, at: real)

  /** `inflight` is a decision made from a snapshot and not yet written; `switches` is bookkeeping for the live session. */
  datatype World = World(session: Option<Session>, inflight: Option<Decision>, switches: seq<Switch>)

  datatype Event =
    | Turn(runner: nat, answers: Option<Answers>, facts: Facts, manual: Option<Profile>, turnIndex: int, now: real)
    | Write(now: real)
    | Finish(ok: bool, truncated: bool, cost: real, now: real)
    | Drop

  /** The catalog and its registered strategies. */
  datatype Setup = Setup(id: string, catalog: Catalog, runners: seq<Runner>)

  ghost predicate SetupOk(e: Setup) {
    forall i :: 0 <= i < |e.runners| ==> RunnerOk(e.runners[i])
  }

  function RequestOf(w: World, e: Event): Request
    requires e.Turn?
  {
    Request(e.facts, w.session, e.manual, e.turnIndex, e.now)
  }

  ghost function Do(e: Setup, w: World, event: Event): World
    requires SetupOk(e)
  {
    match event
    case Turn(k, answers, _, _, turnIndex, now) =>
      if w.inflight.Some? || k >= |e.runners| then w
      else (
        match RunnerDecide(e.runners[k], e.catalog, answers, RequestOf(w, event))
        case Err(_) => w
        case Ok(o) => w.(inflight := Some(Decision(o, e.runners[k].s.name, turnIndex, now))))
    case Write(now) =>
      if w.inflight.None? then w
      else
        var d := w.inflight.value;
        var base := if w.session.Some? then w.session.value else NewSession(e.id, d, now);
        var before := if w.session.Some? then w.switches else [];
        World(Some(Persisted(base, d, now)), None,
              before + if d.outcome.switchedFrom.None? then []
                       else [Switch(IsQuality(d.outcome.reason.base), d.turnIndex, d.decidedAt, now)])
    case Finish(ok, truncated, cost, now) =>
      if w.session.None? then w else w.(session := Some(WithOutcome(w.session.value, ok, truncated, cost, now)))
    case Drop => w.(session := None, switches := [])
  }

  ghost function Run(e: Setup, w: World, events: seq<Event>): World
    requires SetupOk(e)
  {
    if events == [] then w else Do(e, Run(e, w, events[..|events| - 1]), events[|events| - 1])
  }

  const EMPTY := World(None, None, [])

  // Tiers

  /** A request's own label, if it has one, comes from the strategy that will decide it. */
  ghost predicate LabelsOwn(e: Setup, event: Event) {
    event.Turn? && event.runner < |e.runners| ==> OwnLabel(e.runners[event.runner].s, event.facts)
  }

  ghost predicate NoneNamedDefault(e: Setup) {
    forall i :: 0 <= i < |e.runners| ==> NoDefaultLabel(e.runners[i].s)
  }

  /** The tier is a label of a registered strategy or "default". */
  ghost predicate Committed(e: Setup, tier: string, defaulted: bool) {
    && (tier == "default" || exists i :: 0 <= i < |e.runners| && HasLabel(e.runners[i].s.policy.labels, tier))
    && (NoneNamedDefault(e) ==> (tier == "default" <==> defaulted))
  }

  ghost predicate TiersOk(e: Setup, w: World) {
    && (w.session.Some? ==> w.session.value.defaulted.Some? && Committed(e, w.session.value.tier, w.session.value.defaulted.value))
    && (w.inflight.Some? ==> Committed(e, w.inflight.value.outcome.tier, w.inflight.value.outcome.defaulted))
  }

  lemma SameLabels(s: Strategy, pick: Pick)
    ensures Reordered(s, pick).policy.labels == s.policy.labels
  {
  }

  /** What a runner commits to, with or without a matrix in front of the policy. */
  lemma RunnerTier(runner: Runner, c: Catalog, answers: Option<Answers>, r: Request)
    requires RunnerOk(runner) && OwnLabel(runner.s, r.facts)
    requires RunnerDecide(runner, c, answers, r).Ok?
    ensures var o := RunnerDecide(runner, c, answers, r).value;
      && KnownTier(runner.s, o.tier)
      && ((r.session.Some? ==> r.session.value.defaulted.Some?)
          && (r.session.Some? ==> (r.session.value.tier == "default" <==> r.session.value.defaulted == Some(true)))
          && NoDefaultLabel(runner.s)
          ==> (o.tier == "default" <==> o.defaulted))
  {
    var s, q := runner.s, r;
    if runner.WithMatrix? && !(r.manual.Some? || (r.session.Some? && s.policy.mode.Cached?)) {
      var pick := Picked(runner.options, answers);
      PickedLabelExists(s, runner.options, answers);
      q := r.(facts := r.facts.(routeLabel := Some(PickedLabel(s, pick))));
      s := Reordered(s, pick);
    }
    DecisionTierKnown(s, c, q);
    if (r.session.Some? ==> r.session.value.defaulted.Some?)
       && (r.session.Some? ==> (r.session.value.tier == "default" <==> r.session.value.defaulted == Some(true)))
       && NoDefaultLabel(runner.s) {
      DecisionTier(s, c, q);
    }
  }

  lemma EventKeepsTiers(e: Setup, w: World, event: Event)
    requires SetupOk(e) && TiersOk(e, w) && LabelsOwn(e, event)
    ensures TiersOk(e, Do(e, w, event))
  {
    if event.Turn? && w.inflight.None? && event.runner < |e.runners| {
      var r := RequestOf(w, event);
      var runner := e.runners[event.runner];
      if RunnerDecide(runner, e.catalog, event.answers, r).Ok? {
        RunnerTier(runner, e.catalog, event.answers, r);
      }
    }
  }

  /**
   Over every run, with turns that change strategy and outcomes and drops anywhere: each
   committed tier is a configured label or "default", and when no label has that name the
   session's tier is "default" exactly when it is marked defaulted.
   */
  lemma {:induction false} TiersOverRuns(e: Setup, events: seq<Event>)
    requires SetupOk(e) && forall i :: 0 <= i < |events| ==> LabelsOwn(e, events[i])
    ensures TiersOk(e, Run(e, EMPTY, events))
  {
    if events != [] {
      var n := |events| - 1;
      forall i | 0 <= i < n ensures LabelsOwn(e, events[..n][i]) {
        assert events[..n][i] == events[i];
      }
      TiersOverRuns(e, events[..n]);
      EventKeepsTiers(e, Run(e, EMPTY, events[..n]), events[n]);
    }
  }

  // Hysteresis

  /** All registered strategies damp switching alike, and none reroutes every turn. */
  ghost predicate Damped(e: Setup, h: Hysteresis<real>) {
    forall i :: 0 <= i < |e.runners| ==> e.runners[i].s.policy.hysteresis == h && !e.runners[i].s.policy.mode.Fresh?
  }

  predicate Allows(h: Hysteresis<real>, session: Session, turnIndex: int, now: real) {
    && (session.switchCount as real) < h.maxSwitches
    && (session.switchCount == 0
        || ((turnIndex - session.switchedAtTurn) as real >= h.minTurns && now - session.switchedAt >= h.cooldown))
  }

  /** A quality switch comes long enough after the switch before it, of any kind, and within the allowance. */
  ghost predicate Spaced(h: Hysteresis<real>, switches: seq<Switch>) {
    forall i :: 0 <= i < |switches| && switches[i].quality ==>
      && (i as real) < h.maxSwitches
      && (i > 0 ==>
            && (switches[i].turn - switches[i - 1].turn) as real >= h.minTurns
            && switches[i].decidedAt - switches[i - 1].at >= h.cooldown)
  }

  predicate MovesForQuality(d: Decision) {
    d.outcome.switchedFrom.Some? && IsQuality(d.outcome.reason.base)
  }

  ghost predicate SwitchesOk(h: Hysteresis<real>, w: World) {
    && Spaced(h, w.switches)
    && (w.session.None? ==> w.switches == [])
    && (w.session.Some? ==>
          && |w.switches| == w.session.value.switchCount
          && (w.switches != [] ==>
                && w.session.value.switchedAtTurn == w.switches[|w.switches| - 1].turn
                && w.session.value.switchedAt == w.switches[|w.switches| - 1].at))
    && (w.inflight.Some? && MovesForQuality(w.inflight.value) ==>
          && 0.0 < h.maxSwitches
          && (w.session.Some? ==> Allows(h, w.session.value, w.inflight.value.turnIndex, w.inflight.value.decidedAt)))
  }

  lemma RunnerMovesAllowed(runner: Runner, c: Catalog, answers: Option<Answers>, r: Request)
    requires RunnerOk(runner) && !runner.s.policy.mode.Fresh? && RunnerDecide(runner, c, answers, r).Ok?
    requires RunnerDecide(runner, c, answers, r).value.switchedFrom.Some? && IsQuality(RunnerDecide(runner, c, answers, r).value.reason.base)
    ensures r.session.Some? && Allows(runner.s.policy.hysteresis, r.session.value, r.turnIndex, r.now)
  {
    if runner.WithMatrix? && !(r.manual.Some? || (r.session.Some? && runner.s.policy.mode.Cached?)) {
      var pick := Picked(runner.options, answers);
      QualityMovesAreAllowed(Reordered(runner.s, pick), c, r.(facts := r.facts.(routeLabel := Some(PickedLabel(runner.s, pick)))));
    } else {
      QualityMovesAreAllowed(runner.s, c, r);
    }
  }

  lemma SpacedAppend(h: Hysteresis<real>, switches: seq<Switch>, last: Switch)
    requires Spaced(h, switches)
    requires last.quality ==> (|switches| as real) < h.maxSwitches
    requires last.quality && switches != [] ==>
      && (last.turn - switches[|switches| - 1].turn) as real >= h.minTurns
      && last.decidedAt - switches[|switches| - 1].at >= h.cooldown
    ensures Spaced(h, switches + [last])
  {
  }

  lemma PersistedFields(session: Session, d: Decision, now: real)
    ensures var p := Persisted(session, d, now);
      && p.switchCount == session.switchCount + (if d.outcome.switchedFrom.Some? then 1 else 0)
      && p.switchedAtTurn == (if d.outcome.switchedFrom.Some? then d.turnIndex else session.switchedAtTurn)
      && p.switchedAt == (if d.outcome.switchedFrom.Some? then now else session.switchedAt)
      && p.route == d.outcome.model && p.tier == d.outcome.tier && p.defaulted == Some(d.outcome.defaulted)
  {
  }

  lemma TurnKeepsSwitches(e: Setup, h: Hysteresis<real>, w: World, event: Event)
    requires SetupOk(e) && Damped(e, h) && SwitchesOk(h, w) && event.Turn?
    ensures SwitchesOk(h, Do(e, w, event))
  {
    if w.inflight.None? && event.runner < |e.runners| {
      var r, runner := RequestOf(w, event), e.runners[event.runner];
      var decided := RunnerDecide(runner, e.catalog, event.answers, r);
      if decided.Ok? {
        var d := Decision(decided.value, runner.s.name, event.turnIndex, event.now);
        assert Do(e, w, event) == w.(inflight := Some(d));
        if MovesForQuality(d) {
          RunnerMovesAllowed(runner, e.catalog, event.answers, r);
        }
      }
    }
  }

  /** What a write begins with: the session there is and its switches, or a new session. */
  function WrittenOnto(e: Setup, w: World, now: real): (Session, seq<Switch>)
    requires w.inflight.Some?
  {
    if w.session.Some? then (w.session.value, w.switches) else (NewSession(e.id, w.inflight.value, now), [])
  }

  /** A write persists the decision in the session, and notes the switch it may be. */
  lemma WriteDoes(e: Setup, w: World, now: real)
    requires SetupOk(e) && w.inflight.Some?
    ensures var d, before, v := w.inflight.value, WrittenOnto(e, w, now), Do(e, w, Write(now));
      && v.inflight.None? && v.session == Some(Persisted(before.0, d, now))
      && v.switches == before.1 + if d.outcome.switchedFrom.Some?
                                  then [Switch(IsQuality(d.outcome.reason.base), d.turnIndex, d.decidedAt, now)] else []
  {
  }

  lemma WriteKeepsSwitches(e: Setup, h: Hysteresis<real>, w: World, now: real)
    requires SetupOk(e) && SwitchesOk(h, w) && w.inflight.Some?
    ensures SwitchesOk(h, Do(e, w, Write(now)))
  {
    var d, before := w.inflight.value, WrittenOnto(e, w, now);
    var last := Switch(IsQuality(d.outcome.reason.base), d.turnIndex, d.decidedAt, now);
    WriteDoes(e, w, now);
    PersistedFields(before.0, d, now);
    if d.outcome.switchedFrom.Some? {
      assert last.quality ==> MovesForQuality(d);
      SpacedAppend(h, before.1, last);
    }
  }

  lemma EventKeepsSwitches(e: Setup, h: Hysteresis<real>, w: World, event: Event)
    requires SetupOk(e) && Damped(e, h) && SwitchesOk(h, w)
    ensures SwitchesOk(h, Do(e, w, event))
  {
    if event.Turn? {
      TurnKeepsSwitches(e, h, w, event);
    } else if event.Write? && w.inflight.Some? {
      WriteKeepsSwitches(e, h, w, event.now);
    }
  }

  function QualityCount(switches: seq<Switch>): nat {
    if switches == [] then 0
    else QualityCount(switches[..|switches| - 1]) + if switches[|switches| - 1].quality then 1 else 0
  }

  lemma {:induction false} CountWithin(h: Hysteresis<real>, switches: seq<Switch>)
    requires Spaced(h, switches)
    ensures QualityCount(switches) <= |switches|
    ensures QualityCount(switches) > 0 ==> (QualityCount(switches) - 1) as real < h.maxSwitches
  {
    if switches != [] {
      var n := |switches| - 1;
      assert Spaced(h, switches[..n]) by {
        forall i | 0 <= i < n && switches[..n][i].quality
          ensures (i as real) < h.maxSwitches
          ensures i > 0 ==>
            && (switches[..n][i].turn - switches[..n][i - 1].turn) as real >= h.minTurns
            && switches[..n][i].decidedAt - switches[..n][i - 1].at >= h.cooldown
        {
          assert switches[i].quality;
        }
      }
      CountWithin(h, switches[..n]);
    }
  }

  /**
   Over every run, however outcomes interleave: a live session's quality switches number at
   most `max_switches_per_session`, and each was decided at least the minimum turns and the
   cooldown after the switch before it, of whatever kind.
   */
  lemma {:induction false} SwitchesOverRuns(e: Setup, h: Hysteresis<real>, events: seq<Event>)
    requires SetupOk(e) && Damped(e, h)
    ensures SwitchesOk(h, Run(e, EMPTY, events))
  {
    if events != [] {
      var n := |events| - 1;
      SwitchesOverRuns(e, h, events[..n]);
      EventKeepsSwitches(e, h, Run(e, EMPTY, events[..n]), events[n]);
    }
  }

  lemma QualitySwitchesAreBounded(e: Setup, h: Hysteresis<real>, most: nat, events: seq<Event>)
    requires SetupOk(e) && Damped(e, h) && h.maxSwitches == most as real
    ensures QualityCount(Run(e, EMPTY, events).switches) <= most
    ensures Spaced(h, Run(e, EMPTY, events).switches)
  {
    SwitchesOverRuns(e, h, events);
    CountWithin(h, Run(e, EMPTY, events).switches);
  }

  /** One strategy decides every turn. */
  ghost predicate OneStrategy(e: Setup) {
    |e.runners| == 1
  }

  // The engine as it runs, over the bounded store

  class RoutingEngine {
    const catalog: Catalog
    const runners: seq<Runner>
    const store: MemorySessionStore

    constructor (catalog: Catalog, runners: seq<Runner>, store: MemorySessionStore)
      ensures this.catalog == catalog && this.runners == runners && this.store == store
    {
      this.catalog, this.runners, this.store := catalog, runners, store;
    }

    /** Routes one request from a snapshot of its session and writes the decision back. */
    method DecideAndPersist(k: nat, answers: Option<Answers>, id: Option<string>, facts: Facts, manual: Option<Profile>,
                            turnIndex: int, decidedAt: real, writtenAt: real, storeNow: real)
      returns (r: Result<Decision, SetupIncomplete>)
      requires k < |runners| && RunnerOk(runners[k])
      requires store.intake.Keys == store.lastSeen.Keys
      modifies store
      ensures var session := if id.Some? then old(Live(store.State(), id.value, storeNow)) else None;
        var outcome := RunnerDecide(runners[k], catalog, answers, Request(facts, session, manual, turnIndex, decidedAt));
        r == match outcome
             case Err(e) => Err(e)
             case Ok(o) => Ok(Decision(o, runners[k].s.name, turnIndex, decidedAt))
      ensures id.None? ==> store.State() == old(store.State())
      ensures id.Some? && r.Err? ==> store.State() == Touch(old(store.State()), id.value, storeNow)
      ensures id.Some? && r.Ok? ==>
        store.State() == Mutated(Touch(old(store.State()), id.value, storeNow), id.value, PersistUpdate(r.value, writtenAt),
                                 Some(NewSession(id.value, r.value, writtenAt)), storeNow)
    {
      var session := None;
      if id.Some? {
        session := store.GetLocked(id.value, storeNow);
      }
      var outcome := RunnerDecide(runners[k], catalog, answers, Request(facts, session, manual, turnIndex, decidedAt));
      if outcome.Err? {
        return Err(outcome.error);
      }
      var decision := Decision(outcome.value, runners[k].s.name, turnIndex, decidedAt);
      r := Ok(decision);
      if id.Some? {
        var _ := store.Mutate(id.value, PersistUpdate(decision, writtenAt), Some(NewSession(id.value, decision, writtenAt)), storeNow);
      }
    }

    /** Feeds one upstream result into the session's counters, if it is still there. */
    method RecordOutcome(id: Option<string>, ok: bool, truncated: bool, cost: real, now: real, storeNow: real)
      requires store.intake.Keys == store.lastSeen.Keys
      modifies store
      ensures id.None? ==> store.State() == old(store.State())
      ensures id.Some? ==> store.State() == Mutated(old(store.State()), id.value, OutcomeUpdate(ok, truncated, cost, now), None, storeNow)
      ensures id.Some? && old(Unique(store.entries)) ==>
        Counted(old(Live(store.State(), id.value, storeNow)), ok, truncated, cost, now, Lookup(store.entries, id.value))
    {
      if id.Some? {
        ghost var before := store.State();
        var _ := store.Mutate(id.value, OutcomeUpdate(ok, truncated, cost, now), None, storeNow);
        if Unique(before.entries) {
          MutatedLookup(before, id.value, OutcomeUpdate(ok, truncated, cost, now), None, storeNow, id.value);
        }
      }
    }
  }

  /**
   What an outcome leaves of a session: nothing if it was not live or is evicted, and otherwise its
   failures one more or zero, its truncations one more, zero, or after a failure as they were.
   */
  predicate Counted(before: Option<Session>, ok: bool, truncated: bool, cost: real, at: real, after: Option<Session>) {
    after.Some? ==>
      && before.Some?
      && after.value.failures == (if ok then 0 else before.value.failures + 1)
      && after.value.truncations == (if !ok then before.value.truncations else if truncated then before.value.truncations + 1 else 0)
      && after.value.cost == before.value.cost + cost && after.value.updatedAt == at
  }

  function PersistUpdate(d: Decision, now: real): Session -> Session {
    session => Persisted(session, d, now)
  }

  function OutcomeUpdate(ok: bool, truncated: bool, cost: real, now: real): Session -> Session {
    session => WithOutcome(session, ok, truncated, cost, now)
  }

  /**
   Seen from one session, a write to the store is the write of a run followed, at most, by the
   session being evicted; writes to other sessions leave it alone or evict it.
   */
  lemma StoreWriteIsAWrite(store: Store, key: string, d: Decision, now: real, storeNow: real, seen: string)
    requires Valid(store)
    ensures var before := Live(store, key, storeNow);
      var after := Lookup(Mutated(store, key, PersistUpdate(d, now), Some(NewSession(key, d, now)), storeNow).entries, seen);
      || after.None?
      || (seen != key && after == Lookup(store.entries, seen))
      || (seen == key && before.Some? && after.value == Persisted(before.value, d, now))
      || (seen == key && before.None? && exists first :: after.value == Persisted(NewSession(key, d, now).(firstRequestAt := first), d, now))
  {
    MutatedLookup(store, key, PersistUpdate(d, now), Some(NewSession(key, d, now)), storeNow, seen);
    var created := Created(store, key, NewSession(key, d, now), storeNow);
    assert created == NewSession(key, d, now).(firstRequestAt := created.firstRequestAt);
  }
}
