/**
 What a session's fields amount to, over any history of the table it is kept in: outcomes recorded
 on it, decisions written to it, and whatever else happens to the table in between.
 */
module Histories {
  import opened Wrappers
  import opened Sessions
  import opened Strategies
  import opened Engine

  /** An upstream result: whether it succeeded, was cut off at the output limit, and what it cost. */
  datatype Reply = Reply(ok: bool, truncated: bool, cost: real)

  datatype Step =
    | Recorded(reply: Reply, at: real)
    | Written(decision: Decision, at: real)
    | Elsewhere(op: Operation)

  /** Anything but a write to this session. */
  predicate Spares(op: Operation, key: string) {
    (op.Mutating? ==> op.key != key) && (op.Putting? ==> op.session.id != key)
  }

  /** What the engine and the store do to the table in one step; `now` is the table's clock. */
  ghost predicate IsStep(before: Store, step: Step, now: real, after: Store, key: string) {
    match step
    case Recorded(reply, at) => after == Mutated(before, key, OutcomeUpdate(reply.ok, reply.truncated, reply.cost, at), None, now)
    case Written(d, at) => after == Mutated(before, key, PersistUpdate(d, at), Some(NewSession(key, d, at)), now)
    case Elsewhere(op) => Spares(op, key) && after == Operate(before, op, now)
  }

  /** A stretch of the table's history through which a session is there, and live whenever it is written to. */
  ghost predicate IsHistory(tables: seq<Store>, steps: seq<(Step, real)>, key: string) {
    && |tables| == |steps| + 1
    && (forall i :: 0 <= i < |tables| ==> Unique(tables[i].entries) && Has(tables[i].entries, key))
    && (forall i {:trigger steps[i]} :: 0 <= i < |steps| ==> IsStep(tables[i], steps[i].0, steps[i].1, tables[i + 1], key))
    && (forall i {:trigger steps[i]} :: 0 <= i < |steps| && !steps[i].0.Elsewhere? ==> Live(tables[i], key, steps[i].1).Some?)
  }

  // One step, seen from the session

  /** The fields a decision leaves alone. */
  predicate SameCounters(a: Session, b: Session) {
    a.failures == b.failures && a.truncations == b.truncations && a.cost == b.cost
  }

  /** The fields an outcome leaves alone. */
  predicate SameRoute(a: Session, b: Session) {
    && a.route == b.route && a.tier == b.tier && a.defaulted == b.defaulted && a.strategy == b.strategy
    && a.turnCount == b.turnCount && a.switchCount == b.switchCount
    && a.switchedAtTurn == b.switchedAtTurn && a.switchedAt == b.switchedAt && a.events == b.events
  }

  predicate Counts(before: Session, reply: Reply, after: Session) {
    Counted(Some(before), reply.ok, reply.truncated, reply.cost, after.updatedAt, Some(after))
  }

  /** What a decision adds to a session's log: the switch it may be, and itself. */
  function Noted(d: Decision): seq<Sessions.Event> {
    var o := d.outcome;
    (if o.switchedFrom.Some? then [Switched(o.switchedFrom.value, o.model, o.reason, d.turnIndex)] else [])
    + [Decided(o.model, o.reason, d.turnIndex)]
  }

  /** The last forty of all, or all of them. */
  predicate AreNewest(all: seq<Sessions.Event>, kept: seq<Sessions.Event>) {
    |kept| == (if |all| > 40 then 40 else |all|) && kept == all[|all| - |kept|..]
  }

  lemma NewestOfNewest(all: seq<Sessions.Event>, kept: seq<Sessions.Event>, more: seq<Sessions.Event>, newest: seq<Sessions.Event>)
    requires AreNewest(all, kept) && AreNewest(kept + more, newest)
    ensures AreNewest(all + more, newest)
  {
    assert all + more == all[..|all| - |kept|] + (kept + more);
  }

  lemma RecordedIsNewest(s: Session, event: Sessions.Event)
    ensures AreNewest(s.events + [event], RecordEvent(s, event).events)
  {
  }

  /** The log after a decision: one or two entries recorded. */
  lemma PersistedLog(before: Session, d: Decision, at: real)
    ensures var o, after := d.outcome, Persisted(before, d, at);
      var middle := if o.switchedFrom.None? then before
                    else RecordEvent(before, Switched(o.switchedFrom.value, o.model, o.reason, d.turnIndex));
      after.events == RecordEvent(middle, Decided(o.model, o.reason, d.turnIndex)).events
  {
  }

  lemma NotedIsKept(before: Session, d: Decision, at: real)
    ensures AreNewest(before.events + Noted(d), Persisted(before, d, at).events)
  {
    var o, after := d.outcome, Persisted(before, d, at);
    var last := Decided(o.model, o.reason, d.turnIndex);
    PersistedLog(before, d, at);
    if o.switchedFrom.Some? {
      var first := Switched(o.switchedFrom.value, o.model, o.reason, d.turnIndex);
      var middle := RecordEvent(before, first);
      RecordedIsNewest(before, first);
      RecordedIsNewest(middle, last);
      NewestOfNewest(before.events + [first], middle.events, [last], after.events);
      assert before.events + Noted(d) == before.events + [first] + [last];
    } else {
      RecordedIsNewest(before, last);
      assert Noted(d) == [last];
    }
  }

  predicate Routes(before: Session, d: Decision, at: real, after: Session) {
    && AreNewest(before.events + Noted(d), after.events)
    && after.route == d.outcome.model && after.tier == d.outcome.tier && after.defaulted == Some(d.outcome.defaulted)
    && after.strategy == Some(d.strategy)
    && after.turnCount >= before.turnCount && after.turnCount >= d.turnIndex && after.turnCount >= 1
    && (after.turnCount == before.turnCount || after.turnCount == d.turnIndex || after.turnCount == 1)
    && (if d.outcome.switchedFrom.None? then
          && after.switchCount == before.switchCount
          && after.switchedAtTurn == before.switchedAtTurn && after.switchedAt == before.switchedAt
        else
          && after.switchCount == before.switchCount + 1
          && after.switchedAtTurn == d.turnIndex && after.switchedAt == at)
  }

  predicate SessionStep(before: Session, step: Step, after: Session) {
    match step
    case Recorded(reply, at) => Remains(before, at, after) && SameRoute(before, after) && Counts(before, reply, after)
    case Written(d, at) => Remains(before, at, after) && SameCounters(before, after) && Routes(before, d, at, after)
    case Elsewhere(_) => Remains(before, before.updatedAt, after) && SameRoute(before, after) && SameCounters(before, after)
  }

  /** It is still the same session, last updated at this time. */
  predicate Remains(before: Session, at: real, after: Session) {
    after.id == before.id && after.createdAt == before.createdAt && after.updatedAt == at
  }

  lemma LiveIsThere(s: Store, key: string, now: real)
    requires Unique(s.entries) && Live(s, key, now).Some?
    ensures Live(s, key, now) == Lookup(s.entries, key)
  {
    if Touch(s, key, now) != s {
      HasIff(Without(s.entries, key), key);
    }
  }

  lemma WriteIsSeen(before: Store, step: Step, now: real, after: Store, key: string)
    requires Unique(before.entries) && IsStep(before, step, now, after, key) && !step.Elsewhere?
    requires Live(before, key, now).Some? && Has(after.entries, key)
    ensures Has(before.entries, key) && SessionStep(Lookup(before.entries, key).value, step, Lookup(after.entries, key).value)
  {
    LiveIsThere(before, key, now);
    if step.Recorded? {
      MutatedLookup(before, key, OutcomeUpdate(step.reply.ok, step.reply.truncated, step.reply.cost, step.at), None, now, key);
    } else {
      MutatedLookup(before, key, PersistUpdate(step.decision, step.at), Some(NewSession(key, step.decision, step.at)), now, key);
      NotedIsKept(Lookup(before.entries, key).value, step.decision, step.at);
    }
  }

  /** The session a first decision creates has that decision's route, and everything is still to be counted. */
  lemma FirstDecisionIsSeen(before: Store, d: Decision, at: real, now: real, after: Store, key: string)
    requires Unique(before.entries) && IsStep(before, Written(d, at), now, after, key)
    requires Live(before, key, now).None? && Has(after.entries, key)
    ensures var made := Lookup(after.entries, key).value;
      && made.id == key && made.createdAt == at && made.updatedAt == at
      && made.failures == 0 && made.truncations == 0 && made.cost == 0.0
      && made.route == d.outcome.model && made.tier == d.outcome.tier && made.defaulted == Some(d.outcome.defaulted)
      && made.strategy == Some(d.strategy) && made.turnCount == (if d.turnIndex > 1 then d.turnIndex else 1)
      && made.switchCount == (if d.outcome.switchedFrom.Some? then 1 else 0)
  {
    MutatedLookup(before, key, PersistUpdate(d, at), Some(NewSession(key, d, at)), now, key);
  }

  /** The session is gone, or as it was but for the time of its first request. */
  predicate SameButFirst(before: Option<Session>, after: Option<Session>) {
    after.None? || (before.Some? && after.value == before.value.(firstRequestAt := after.value.firstRequestAt))
  }

  lemma FewerSeen(before: seq<Entry>, after: seq<Entry>, key: string)
    requires Unique(before) && forall e :: e in after ==> e in before
    ensures SameButFirst(Lookup(before, key), Lookup(after, key))
  {
    SubsetLookup(after, before, key);
  }

  lemma PutElsewhere(s: Store, session: Session, key: string)
    requires Unique(s.entries) && session.id != key
    ensures SameButFirst(Lookup(s.entries, key), Lookup(Stored(s, session).entries, key))
  {
    var made := if session.id in s.intake then session.(firstRequestAt := Some(s.intake[session.id].receivedAt)) else session;
    var all := Assign(s.entries, session.id, made);
    AssignUnique(s.entries, session.id, made);
    AssignLookup(s.entries, session.id, made, key);
    BoundedOk(all, s.maxSessions);
    SubsetLookup(Bounded(all, s.maxSessions), all, key);
  }

  lemma IntakeElsewhere(s: Store, noted: string, receivedAt: real, now: real, key: string)
    requires Unique(s.entries)
    ensures SameButFirst(Lookup(s.entries, key), Lookup(RecordedIntake(s, noted, receivedAt, now).entries, key))
  {
    var t := Touch(PruneIntake(s, now), noted, now);
    FewerSeen(s.entries, t.entries, key);
    var found := Lookup(t.entries, noted);
    if found.Some? {
      AssignLookup(t.entries, noted, found.value.(firstRequestAt := Some(Earliest(found.value.firstRequestAt, receivedAt))), key);
    }
  }

  lemma DropsElsewhere(s: Store, op: Operation, now: real, key: string)
    requires Unique(s.entries) && (op.Getting? || op.Pruning? || op.Clearing? || op.Configuring?)
    ensures SameButFirst(Lookup(s.entries, key), Lookup(Operate(s, op, now).entries, key))
  {
    if op.Configuring? {
      UnexpiredUnique(s.entries, op.ttl, now);
      BoundedOk(Unexpired(s.entries, op.ttl, now), op.maxSessions);
    }
    FewerSeen(s.entries, Operate(s, op, now).entries, key);
  }

  lemma ElsewhereIsNotSeen(s: Store, op: Operation, now: real, key: string)
    requires Unique(s.entries) && Spares(op, key)
    ensures SameButFirst(Lookup(s.entries, key), Lookup(Operate(s, op, now).entries, key))
  {
    if op.Mutating? {
      MutatedLookup(s, op.key, op.update, op.factory, now, key);
    } else if op.Putting? {
      PutElsewhere(s, op.session, key);
    } else if op.Intaking? {
      IntakeElsewhere(s, op.key, op.receivedAt, now, key);
    } else {
      DropsElsewhere(s, op, now, key);
    }
  }

  // Whole histories

  function Seen(tables: seq<Store>, key: string): seq<Session>
    requires forall i :: 0 <= i < |tables| ==> Has(tables[i].entries, key)
  {
    seq(|tables|, i requires 0 <= i < |tables| => Lookup(tables[i].entries, key).value)
  }

  function StepsOf(steps: seq<(Step, real)>): seq<Step> {
    seq(|steps|, i requires 0 <= i < |steps| => steps[i].0)
  }

  ghost predicate IsCourse(sessions: seq<Session>, steps: seq<Step>) {
    |sessions| == |steps| + 1 && forall i {:trigger steps[i]} :: 0 <= i < |steps| ==> SessionStep(sessions[i], steps[i], sessions[i + 1])
  }

  lemma HistoryIsCourse(tables: seq<Store>, steps: seq<(Step, real)>, key: string)
    requires IsHistory(tables, steps, key)
    ensures IsCourse(Seen(tables, key), StepsOf(steps))
  {
    forall i | 0 <= i < |steps|
      ensures SessionStep(Lookup(tables[i].entries, key).value, steps[i].0, Lookup(tables[i + 1].entries, key).value)
    {
      if steps[i].0.Elsewhere? {
        ElsewhereIsNotSeen(tables[i], steps[i].0.op, steps[i].1, key);
      } else {
        WriteIsSeen(tables[i], steps[i].0, steps[i].1, tables[i + 1], key);
      }
    }
  }

  /** What came back from upstream, in order. */
  function Replies(steps: seq<Step>): seq<Reply> {
    if steps == [] then []
    else
      var last := steps[|steps| - 1];
      Replies(steps[..|steps| - 1]) + if last.Recorded? then [last.reply] else []
  }

  /** What was decided, in order, and when each decision was written. */
  function Decisions(steps: seq<Step>): seq<(Decision, real)> {
    if steps == [] then []
    else
      var last := steps[|steps| - 1];
      Decisions(steps[..|steps| - 1]) + if last.Written? then [(last.decision, last.at)] else []
  }

  function Successful(): Reply -> bool {
    (reply: Reply) => reply.ok
  }

  function Complete(): Reply -> bool {
    (reply: Reply) => reply.ok && !reply.truncated
  }

  function CutOff(): Reply -> bool {
    (reply: Reply) => reply.ok && reply.truncated
  }

  function Moving(): ((Decision, real)) -> bool {
    (d: (Decision, real)) => d.0.outcome.switchedFrom.Some?
  }

  function Count<T>(s: seq<T>, counts: T -> bool): nat {
    if s == [] then 0 else Count(s[..|s| - 1], counts) + if counts(s[|s| - 1]) then 1 else 0
  }

  function Sum(replies: seq<Reply>): real {
    if replies == [] then 0.0 else Sum(replies[..|replies| - 1]) + replies[|replies| - 1].cost
  }

  /** The last of this kind stands at position k. */
  ghost predicate IsLast<T>(s: seq<T>, kind: T -> bool, k: nat) {
    k < |s| && kind(s[k]) && forall j :: k < j < |s| ==> !kind(s[j])
  }

  ghost predicate HasNone<T>(s: seq<T>, kind: T -> bool) {
    forall j :: 0 <= j < |s| ==> !kind(s[j])
  }

  lemma Appended<T>(s: seq<T>, x: T, kind: T -> bool, k: nat)
    ensures IsLast(s + [x], kind, k) <==> if kind(x) then k == |s| else IsLast(s, kind, k)
    ensures HasNone(s + [x], kind) <==> HasNone(s, kind) && !kind(x)
  {
    var all := s + [x];
    assert all[|s|] == x && forall j :: 0 <= j < |s| ==> all[j] == s[j];
    if IsLast(s, kind, k) && !kind(x) {
      assert forall j :: k < j < |all| ==> !kind(all[j]);
    }
    if IsLast(all, kind, k) && !kind(x) {
      assert forall j :: k < j < |s| ==> !kind(all[j]);
    }
    if HasNone(all, kind) {
      assert forall j :: 0 <= j < |s| ==> !kind(all[j]);
    }
  }

  /** So many of one kind since the last one of another; with none of those, all of them and what there was before. */
  ghost predicate IsCountSince(replies: seq<Reply>, resets: Reply -> bool, counts: Reply -> bool, before: nat, n: nat) {
    && (forall k: nat :: IsLast(replies, resets, k) ==> n == Count(replies[k + 1..], counts))
    && (HasNone(replies, resets) ==> n == before + Count(replies, counts))
  }

  lemma {:induction false} CountSince(replies: seq<Reply>, reply: Reply, resets: Reply -> bool, counts: Reply -> bool, before: nat, n: nat)
    requires IsCountSince(replies, resets, counts, before, n) && (counts(reply) ==> !resets(reply))
    ensures IsCountSince(replies + [reply], resets, counts, before, if resets(reply) then 0 else if counts(reply) then n + 1 else n)
  {
    var all := replies + [reply];
    var m := if resets(reply) then 0 else if counts(reply) then n + 1 else n;
    forall k: nat | IsLast(all, resets, k) ensures m == Count(all[k + 1..], counts) {
      Appended(replies, reply, resets, k);
      if k < |replies| {
        assert all[k + 1..] == replies[k + 1..] + [reply];
        assert all[k + 1..][..|replies| - k - 1] == replies[k + 1..];
      }
    }
    Appended(replies, reply, resets, 0);
    assert all[..|replies|] == replies;
  }

  /** The counters that outcomes feed. */
  ghost predicate CountersAre(start: Session, replies: seq<Reply>, end: Session) {
    && (forall k: nat :: IsLast(replies, Successful(), k) ==> end.failures == |replies| - 1 - k)
    && (HasNone(replies, Successful()) ==> end.failures == start.failures + |replies|)
    && IsCountSince(replies, Complete(), CutOff(), start.truncations, end.truncations)
    && end.cost == start.cost + Sum(replies)
  }

  lemma FailuresStep(start: Session, replies: seq<Reply>, reply: Reply, before: Session, after: Session)
    requires CountersAre(start, replies, before) && Counts(before, reply, after)
    ensures var all := replies + [reply];
      && (forall k: nat :: IsLast(all, Successful(), k) ==> after.failures == |all| - 1 - k)
      && (HasNone(all, Successful()) ==> after.failures == start.failures + |all|)
  {
    Appended(replies, reply, Successful(), 0);
    forall k: nat | IsLast(replies + [reply], Successful(), k) ensures after.failures == |replies| - k {
      Appended(replies, reply, Successful(), k);
    }
  }

  lemma CountersStep(start: Session, replies: seq<Reply>, reply: Reply, before: Session, after: Session)
    requires CountersAre(start, replies, before) && Counts(before, reply, after)
    ensures CountersAre(start, replies + [reply], after)
  {
    FailuresStep(start, replies, reply, before, after);
    CountSince(replies, reply, Complete(), CutOff(), start.truncations, before.truncations);
    assert (replies + [reply])[..|replies|] == replies;
  }

  lemma SameCountersStay(start: Session, replies: seq<Reply>, before: Session, after: Session)
    requires CountersAre(start, replies, before) && SameCounters(before, after)
    ensures CountersAre(start, replies, after)
  {
  }

  lemma {:induction false} CourseCounts(sessions: seq<Session>, steps: seq<Step>)
    requires IsCourse(sessions, steps)
    ensures CountersAre(sessions[0], Replies(steps), sessions[|steps|])
  {
    if steps != [] {
      var n := |steps| - 1;
      CourseCounts(sessions[..n + 1], steps[..n]);
      var before, after := sessions[n], sessions[n + 1];
      assert SessionStep(before, steps[n], after);
      if steps[n].Recorded? {
        CountersStep(sessions[0], Replies(steps[..n]), steps[n].reply, before, after);
      } else {
        assert Replies(steps) == Replies(steps[..n]);
        SameCountersStay(sessions[0], Replies(steps), before, after);
      }
    }
  }

  /** The turn number is the greatest so far, and at least one once a turn was decided. */
  ghost predicate IsTurnCount(start: int, decisions: seq<(Decision, real)>, count: int) {
    && count >= start && (decisions != [] ==> count >= 1)
    && (forall i :: 0 <= i < |decisions| ==> count >= decisions[i].0.turnIndex)
    && (count == start || (decisions != [] && count == 1) || exists i :: 0 <= i < |decisions| && count == decisions[i].0.turnIndex)
  }

  function Log(decisions: seq<(Decision, real)>): seq<Sessions.Event> {
    if decisions == [] then [] else Log(decisions[..|decisions| - 1]) + Noted(decisions[|decisions| - 1].0)
  }

  /** The fields that decisions set: the last one's choice, how often they switched, when they last did, and the newest of what they noted. */
  ghost predicate RouteIs(start: Session, decisions: seq<(Decision, real)>, end: Session) {
    && (if decisions == [] then
          end.route == start.route && end.tier == start.tier && end.defaulted == start.defaulted && end.strategy == start.strategy
        else
          var last := decisions[|decisions| - 1].0;
          && end.route == last.outcome.model && end.tier == last.outcome.tier
          && end.defaulted == Some(last.outcome.defaulted) && end.strategy == Some(last.strategy))
    && end.switchCount == start.switchCount + Count(decisions, Moving())
    && (forall k: nat :: IsLast(decisions, Moving(), k) ==>
          end.switchedAtTurn == decisions[k].0.turnIndex && end.switchedAt == decisions[k].1)
    && (HasNone(decisions, Moving()) ==> end.switchedAtTurn == start.switchedAtTurn && end.switchedAt == start.switchedAt)
    && IsTurnCount(start.turnCount, decisions, end.turnCount)
    && (|start.events| <= 40 ==> AreNewest(start.events + Log(decisions), end.events))
  }

  lemma SwitchStep(start: Session, decisions: seq<(Decision, real)>, d: Decision, at: real, before: Session, after: Session)
    requires RouteIs(start, decisions, before) && Routes(before, d, at, after)
    ensures var all := decisions + [(d, at)];
      && after.switchCount == start.switchCount + Count(all, Moving())
      && (forall k: nat :: IsLast(all, Moving(), k) ==> after.switchedAtTurn == all[k].0.turnIndex && after.switchedAt == all[k].1)
      && (HasNone(all, Moving()) ==> after.switchedAtTurn == start.switchedAtTurn && after.switchedAt == start.switchedAt)
  {
    var all := decisions + [(d, at)];
    assert all[..|decisions|] == decisions;
    Appended(decisions, (d, at), Moving(), 0);
    forall k: nat | IsLast(all, Moving(), k) ensures after.switchedAtTurn == all[k].0.turnIndex && after.switchedAt == all[k].1 {
      Appended(decisions, (d, at), Moving(), k);
    }
  }

  lemma TurnStep(start: int, decisions: seq<(Decision, real)>, d: Decision, at: real, before: int, after: int)
    requires IsTurnCount(start, decisions, before)
    requires after >= before && after >= d.turnIndex && after >= 1 && (after == before || after == d.turnIndex || after == 1)
    ensures IsTurnCount(start, decisions + [(d, at)], after)
  {
    var all := decisions + [(d, at)];
    assert all[|decisions|] == (d, at) && forall i :: 0 <= i < |decisions| ==> all[i] == decisions[i];
    if i :| 0 <= i < |decisions| && before == decisions[i].0.turnIndex {
      assert before == all[i].0.turnIndex;
    }
  }

  lemma RouteStep(start: Session, decisions: seq<(Decision, real)>, d: Decision, at: real, before: Session, after: Session)
    requires RouteIs(start, decisions, before) && Routes(before, d, at, after)
    ensures RouteIs(start, decisions + [(d, at)], after)
  {
    SwitchStep(start, decisions, d, at, before, after);
    TurnStep(start.turnCount, decisions, d, at, before.turnCount, after.turnCount);
    var all := decisions + [(d, at)];
    assert all[..|decisions|] == decisions;
    assert start.events + Log(all) == start.events + Log(decisions) + Noted(d);
    if |start.events| <= 40 {
      NewestOfNewest(start.events + Log(decisions), before.events, Noted(d), after.events);
    }
  }

  lemma SameRouteStays(start: Session, decisions: seq<(Decision, real)>, before: Session, after: Session)
    requires RouteIs(start, decisions, before) && SameRoute(before, after)
    ensures RouteIs(start, decisions, after)
  {
  }

  lemma {:induction false} CourseRoutes(sessions: seq<Session>, steps: seq<Step>)
    requires IsCourse(sessions, steps)
    ensures RouteIs(sessions[0], Decisions(steps), sessions[|steps|])
  {
    if steps != [] {
      var n := |steps| - 1;
      CourseRoutes(sessions[..n + 1], steps[..n]);
      var before, after := sessions[n], sessions[n + 1];
      assert SessionStep(before, steps[n], after);
      if steps[n].Written? {
        RouteStep(sessions[0], Decisions(steps[..n]), steps[n].decision, steps[n].at, before, after);
      } else {
        assert Decisions(steps) == Decisions(steps[..n]);
        SameRouteStays(sessions[0], Decisions(steps), before, after);
      }
    }
  }

  /**
   Through any stretch of history: a session's failures are the replies since the last successful
   one, its truncations the successes cut off since the last complete one, whatever failed in
   between, and its cost what all replies cost; its route, tier and strategy are the last
   decision's, and its switches all decisions that switched.
   */
  lemma SessionIsItsHistory(tables: seq<Store>, steps: seq<(Step, real)>, key: string)
    requires IsHistory(tables, steps, key)
    ensures var start, end := Lookup(tables[0].entries, key).value, Lookup(tables[|steps|].entries, key).value;
      CountersAre(start, Replies(StepsOf(steps)), end) && RouteIs(start, Decisions(StepsOf(steps)), end)
  {
    HistoryIsCourse(tables, steps, key);
    CourseCounts(Seen(tables, key), StepsOf(steps));
    CourseRoutes(Seen(tables, key), StepsOf(steps));
  }
}
