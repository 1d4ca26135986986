/**
 What becomes of arrivals noted before a session exists: over any sequence of store operations,
 which of them the session's first request time is the earliest of.
 */
module Intakes {
  import opened Wrappers
  import opened Sessions

  type Timed = (Operation, real)

  /** The operation notes an arrival for this key. */
  predicate Notes(op: Operation, key: string) {
    op.Intaking? && op.key == key
  }

  /** Every arrival noted for a key. */
  function Arrivals(ops: seq<Timed>, key: string): seq<real> {
    if ops == [] then []
    else
      var last := ops[|ops| - 1].0;
      Arrivals(ops[..|ops| - 1], key) + if Notes(last, key) then [last.receivedAt] else []
  }

  /** Whether the pending intake of a key is still there once the store has dropped what is too old. */
  predicate StillPending(s: Store, key: string, now: real) {
    key in PruneIntake(s, now).intake
  }

  /** The arrivals noted since the key last became pending. */
  ghost function Since(s: Store, ops: seq<Timed>, key: string): seq<real> {
    if ops == [] then []
    else
      var n := |ops| - 1;
      var op, now := ops[n].0, ops[n].1;
      var earlier := Since(s, ops[..n], key);
      if !Notes(op, key) then earlier
      else if StillPending(OperateAll(s, ops[..n]), key, now) then earlier + [op.receivedAt]
      else [op.receivedAt]
  }

  function EarliestOf(times: seq<real>): (least: real)
    requires times != []
    ensures least in times
  {
    var last := times[|times| - 1];
    if |times| == 1 then last
    else
      var rest := EarliestOf(times[..|times| - 1]);
      if rest <= last then rest else last
  }

  lemma {:induction false} LeastIsLeast(times: seq<real>)
    requires times != []
    ensures forall t :: t in times ==> EarliestOf(times) <= t
  {
    if |times| > 1 {
      LeastIsLeast(times[..|times| - 1]);
      assert times == times[..|times| - 1] + [times[|times| - 1]];
    }
  }

  /** Over these operations no session of that key exists. */
  ghost predicate NeverLive(s: Store, ops: seq<Timed>, key: string) {
    forall i :: 0 <= i <= |ops| ==> !Has(OperateAll(s, ops[..i]).entries, key)
  }

  lemma NeverLivePrefix(s: Store, ops: seq<Timed>, key: string)
    requires NeverLive(s, ops, key) && ops != []
    ensures NeverLive(s, ops[..|ops| - 1], key)
    ensures !Has(OperateAll(s, ops[..|ops| - 1]).entries, key) && !Has(OperateAll(s, ops).entries, key)
  {
    var n := |ops| - 1;
    forall i | 0 <= i <= n ensures !Has(OperateAll(s, ops[..n][..i]).entries, key) {
      assert ops[..n][..i] == ops[..i];
    }
    assert ops[..n + 1] == ops;
  }

  // One operation

  lemma NotingKeeps(s: Store, key: string, at: real, now: real)
    requires Valid(s) && !Has(s.entries, key)
    ensures var t := RecordedIntake(s, key, at, now);
      key in t.intake ==>
        t.intake[key].receivedAt == if StillPending(s, key, now) then Earliest(Some(s.intake[key].receivedAt), at) else at
  {
    var p := PruneIntake(s, now);
    PruneIntakeValid(s, now);
    assert Lookup(p.entries, key).None? && Touch(p, key, now) == p;
    if key !in p.intake {
      BoundIntakesOk(Added(p, key, at, now));
    }
  }

  lemma AddedKeeps(s: Store, added: string, at: real, now: real, key: string)
    requires s.intake.Keys == s.lastSeen.Keys && DistinctOrders(s.intake, s.order) && added != key && added !in s.intake
    ensures var t := AddIntake(s, added, at, now); key in t.intake ==> key in s.intake && t.intake[key] == s.intake[key]
  {
    AddedIsDistinct(s, added, at, now);
    BoundIntakesOk(Added(s, added, at, now));
  }

  lemma OtherArrivalKeeps(s: Store, other: string, at: real, now: real, key: string)
    requires Valid(s) && other != key
    ensures var t := RecordedIntake(s, other, at, now); key in t.intake ==> key in s.intake && t.intake[key] == s.intake[key]
  {
    var p := PruneIntake(s, now);
    PruneIntakeValid(s, now);
    TouchValid(p, other, now);
    var t := Touch(p, other, now);
    if Lookup(t.entries, other).None? && other !in t.intake {
      AddedKeeps(t, other, at, now, key);
    }
  }

  lemma ConfiguringKeeps(s: Store, ttl: real, maxSessions: nat, now: real, key: string)
    requires Valid(s)
    ensures var t := Configured(s, ttl, maxSessions, now); key in t.intake ==> key in s.intake && t.intake[key] == s.intake[key]
  {
    BoundIntakesOk(PruneIntake(s.(ttl := ttl, maxSessions := maxSessions), now));
  }

  lemma OthersKeep(s: Store, op: Operation, now: real, key: string)
    requires Valid(s) && !Notes(op, key) && (op.Intaking? || op.Configuring? || op.Getting? || op.Pruning? || op.Clearing?)
    ensures var t := Operate(s, op, now); key in t.intake ==> key in s.intake && t.intake[key] == s.intake[key]
  {
    if op.Intaking? {
      OtherArrivalKeeps(s, op.key, op.receivedAt, now, key);
    } else if op.Configuring? {
      ConfiguringKeeps(s, op.ttl, op.maxSessions, now, key);
    }
  }

  lemma WritesKeep(s: Store, op: Operation, now: real, key: string)
    requires op.Mutating? || op.Putting?
    ensures var t := Operate(s, op, now); key in t.intake ==> key in s.intake && t.intake[key] == s.intake[key]
  {
  }

  /** A pending intake holds the earliest arrival since it became pending. */
  lemma {:induction false} PendingIsLeast(s: Store, ops: seq<Timed>, key: string)
    requires Valid(s) && key !in s.intake && (forall i :: 0 <= i < |ops| ==> WellBehaved(ops[i].0)) && NeverLive(s, ops, key)
    ensures var t := OperateAll(s, ops);
      key in t.intake ==> Since(s, ops, key) != [] && t.intake[key].receivedAt == EarliestOf(Since(s, ops, key))
  {
    if ops != [] {
      var n := |ops| - 1;
      var before, op, now := OperateAll(s, ops[..n]), ops[n].0, ops[n].1;
      NeverLivePrefix(s, ops, key);
      OperationsKeepValid(s, ops[..n]);
      PendingIsLeast(s, ops[..n], key);
      if Notes(op, key) {
        NotingKeeps(before, key, op.receivedAt, now);
        LeastOfOneMore(Since(s, ops[..n], key), op.receivedAt);
      } else if op.Mutating? || op.Putting? {
        WritesKeep(before, op, now, key);
      } else {
        OthersKeep(before, op, now, key);
      }
    }
  }

  lemma LeastOfOneMore(times: seq<real>, at: real)
    ensures EarliestOf([at]) == at
    ensures times != [] ==> EarliestOf(times + [at]) == Earliest(Some(EarliestOf(times)), at)
  {
    assert (times + [at])[..|times|] == times;
  }

  // The session that is created

  /**
   Whatever the store has been through, a session created for a key gets the earliest arrival
   noted since the key last became pending, and none when the key is not pending any more.
   */
  lemma CreationGetsLeastSince(s: Store, ops: seq<Timed>, key: string, made: Session, now: real)
    requires Valid(s) && key !in s.intake && (forall i :: 0 <= i < |ops| ==> WellBehaved(ops[i].0)) && NeverLive(s, ops, key)
    ensures var t := OperateAll(s, ops);
      if StillPending(t, key, now)
      then Since(s, ops, key) != [] && Created(t, key, made, now).firstRequestAt == Some(EarliestOf(Since(s, ops, key)))
      else Created(t, key, made, now).firstRequestAt == made.firstRequestAt
  {
    var t := OperateAll(s, ops);
    PendingIsLeast(s, ops, key);
    assert ops[..|ops|] == ops;
    assert !Has(t.entries, key);
    assert Touch(t, key, now) == t;
  }

  /** The arrivals since the last entry are the tail of all of them. */
  lemma {:induction false} SinceIsTail(s: Store, ops: seq<Timed>, key: string) returns (dropped: seq<real>)
    ensures Arrivals(ops, key) == dropped + Since(s, ops, key)
  {
    if ops == [] {
      dropped := [];
    } else {
      var n := |ops| - 1;
      var op := ops[n].0;
      dropped := SinceIsTail(s, ops[..n], key);
      if Notes(op, key) && !StillPending(OperateAll(s, ops[..n]), key, ops[n].1) {
        dropped := Arrivals(ops[..n], key);
      } else if Notes(op, key) {
        assert dropped + Since(s, ops[..n], key) + [op.receivedAt] == dropped + (Since(s, ops[..n], key) + [op.receivedAt]);
      }
    }
  }

  ghost predicate Increasing(times: seq<real>) {
    forall i, j :: 0 <= i < j < |times| ==> times[i] < times[j]
  }

  lemma LeastOfTail(dropped: seq<real>, since: seq<real>)
    requires Increasing(dropped + since) && since != []
    ensures EarliestOf(since) == EarliestOf(dropped + since) <==> dropped == []
  {
    var all := dropped + since;
    LeastIsLeast(all);
    if dropped == [] {
      assert all == since;
    } else {
      assert all[0] in all;
      var i :| 0 <= i < |since| && since[i] == EarliestOf(since);
      assert all[|dropped| + i] == since[i];
    }
  }

  /**
   Of arrivals in increasing order, a session created for their key gets the very first exactly
   when the key stayed pending from then to the creation: never too old, never pushed out by the
   bound.
   */
  lemma FirstArrivalReachesSessionIff(s: Store, ops: seq<Timed>, key: string, made: Session, now: real)
    requires Valid(s) && key !in s.intake && (forall i :: 0 <= i < |ops| ==> WellBehaved(ops[i].0)) && NeverLive(s, ops, key)
    requires Arrivals(ops, key) != [] && Increasing(Arrivals(ops, key)) && made.firstRequestAt.None?
    ensures var t := OperateAll(s, ops);
      Created(t, key, made, now).firstRequestAt == Some(EarliestOf(Arrivals(ops, key))) <==>
      StillPending(t, key, now) && Since(s, ops, key) == Arrivals(ops, key)
  {
    CreationGetsLeastSince(s, ops, key, made, now);
    if StillPending(OperateAll(s, ops), key, now) {
      var dropped := SinceIsTail(s, ops, key);
      LeastOfTail(dropped, Since(s, ops, key));
      assert dropped == [] ==> dropped + Since(s, ops, key) == Since(s, ops, key);
    }
  }

  // An arrival that is forgotten

  const QUIET := Store(5.0, 1, [], map[], map[], 0)
  const PENDING := Store(5.0, 1, [], map["a" := Intake(1.0, 1)], map["a" := 0.0], 1)
  const PENDING_AGAIN := Store(5.0, 1, [], map["a" := Intake(2.0, 2)], map["a" := 10.0], 2)

  lemma NotedOnce()
    ensures RecordedIntake(QUIET, "a", 1.0, 0.0) == PENDING
  {
    var added := Added(QUIET, "a", 1.0, 0.0);
    assert PruneIntake(QUIET, 0.0) == QUIET;
    assert |added.intake| == 1;
  }

  lemma NotedAgain()
    ensures !StillPending(PENDING, "a", 10.0) && RecordedIntake(PENDING, "a", 2.0, 10.0) == PENDING_AGAIN
  {
    var p := PruneIntake(PENDING, 10.0);
    assert p == PENDING.(intake := map[], lastSeen := map[]);
    var added := Added(p, "a", 2.0, 10.0);
    assert |added.intake| == 1;
  }

  /** An arrival at 1, a second at 2 noted after the first grew too old, and a creation: the session knows only the second. */
  lemma ForgottenArrival(made: Session)
    ensures var t := RecordedIntake(RecordedIntake(QUIET, "a", 1.0, 0.0), "a", 2.0, 10.0);
      Created(t, "a", made, 10.0).firstRequestAt == Some(2.0)
  {
    NotedOnce();
    NotedAgain();
  }
}
