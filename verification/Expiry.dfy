/**
 When a session expires: the stamps it carries come from one clock, the table reads another, and
 over whole runs expiry is exact if and only if the two agree.
 */
module Expiry {
  import opened Wrappers
  import opened Sessions
  import Eviction

  /** An operation and the table's clock when it is carried out. */
  type Timed = (Operation, real)

  /** The operation writes this session: it stores it, or finds or creates it and updates it. */
  predicate Writes(s: Store, op: Operation, now: real, key: string) {
    || (op.Putting? && op.session.id == key)
    || (op.Mutating? && op.key == key && (Live(s, key, now).Some? || op.factory.Some?))
  }

  /** Whatever the operation writes carries this stamp. */
  ghost predicate StampsAt(op: Operation, at: real) {
    && (op.Putting? ==> op.session.updatedAt == at)
    && (op.Mutating? ==> forall session :: op.update(session).updatedAt == at)
  }

  /** The tables that some operations go through, beginning without sessions; their clock runs `skew` ahead of the stamping one. */
  ghost predicate IsRun(tables: seq<Store>, ops: seq<Timed>, skew: real) {
    && |tables| == |ops| + 1 && tables[0].entries == []
    && forall i {:trigger ops[i]} :: 0 <= i < |ops| ==> Stepping(skew)(tables[i], ops[i], tables[i + 1])
  }

  ghost predicate IsStep(before: Store, op: Timed, after: Store, skew: real) {
    StampsAt(op.0, op.1 - skew) && after == Operate(before, op.0, op.1)
  }

  ghost function Stepping(skew: real): (Store, Timed, Store) -> bool {
    (s, op, t) => IsStep(s, op, t, skew)
  }

  /** The last time at which something was written. */
  function LastOf(writes: seq<bool>, times: seq<real>): real
    requires |writes| == |times|
  {
    if writes == [] then 0.0
    else
      var n := |writes| - 1;
      if writes[n] then times[n] else LastOf(writes[..n], times[..n])
  }

  /** When a session was last written, by the table's clock. */
  function LastWritten(tables: seq<Store>, ops: seq<Timed>, key: string): real
    requires |tables| == |ops| + 1
  {
    LastOf(WritesOf(tables, ops, Writing(key)), TimesOf(ops))
  }

  function Writing(key: string): (Store, Timed) -> bool {
    (s: Store, op: Timed) => Writes(s, op.0, op.1, key)
  }

  function WritesOf(tables: seq<Store>, ops: seq<Timed>, writes: (Store, Timed) -> bool): seq<bool>
    requires |tables| == |ops| + 1
  {
    seq(|ops|, i requires 0 <= i < |ops| => writes(tables[i], ops[i]))
  }

  function TimesOf(ops: seq<Timed>): seq<real> {
    seq(|ops|, i requires 0 <= i < |ops| => ops[i].1)
  }

  /** The stamp of a session, while it is in the table. */
  function StampOf(entries: seq<Entry>, key: string): Option<real> {
    var found := Lookup(entries, key);
    if found.Some? then Some(found.value.updatedAt) else None
  }

  /** A stamp after a step: the new one or none if it was written, the old one or none otherwise. */
  predicate StampStep(before: Option<real>, writes: bool, at: real, after: Option<real>) {
    after.None? || after == if writes then Some(at) else before
  }

  /** A key's stamp is as it was, or the key is gone. */
  ghost predicate SameStamp(before: seq<Entry>, after: seq<Entry>, key: string) {
    StampOf(after, key).None? || StampOf(after, key) == StampOf(before, key)
  }

  lemma FewerSameStamp(before: seq<Entry>, after: seq<Entry>, key: string)
    requires Unique(before) && forall e :: e in after ==> e in before
    ensures SameStamp(before, after, key)
  {
    SubsetLookup(after, before, key);
  }

  lemma WriteStamps(s: Store, op: Operation, now: real, at: real, key: string)
    requires Unique(s.entries) && StampsAt(op, at) && op.Mutating?
    ensures StampStep(StampOf(s.entries, key), Writes(s, op, now, key), at, StampOf(Operate(s, op, now).entries, key))
  {
    MutatedLookup(s, op.key, op.update, op.factory, now, key);
  }

  lemma PutStamps(s: Store, op: Operation, now: real, at: real, key: string)
    requires Unique(s.entries) && StampsAt(op, at) && op.Putting?
    ensures StampStep(StampOf(s.entries, key), Writes(s, op, now, key), at, StampOf(Operate(s, op, now).entries, key))
  {
    var session := op.session;
    var made := if session.id in s.intake then session.(firstRequestAt := Some(s.intake[session.id].receivedAt)) else session;
    var all := Assign(s.entries, session.id, made);
    AssignUnique(s.entries, session.id, made);
    AssignLookup(s.entries, session.id, made, key);
    BoundedOk(all, s.maxSessions);
    SubsetLookup(Bounded(all, s.maxSessions), all, key);
  }

  lemma IntakeStamps(s: Store, op: Operation, now: real, key: string)
    requires Unique(s.entries) && op.Intaking?
    ensures SameStamp(s.entries, Operate(s, op, now).entries, key)
  {
    var t := Touch(PruneIntake(s, now), op.key, now);
    FewerSameStamp(s.entries, t.entries, key);
    var found := Lookup(t.entries, op.key);
    if found.Some? {
      AssignLookup(t.entries, op.key, found.value.(firstRequestAt := Some(Earliest(found.value.firstRequestAt, op.receivedAt))), key);
    }
  }

  lemma OtherStamps(s: Store, op: Operation, now: real, key: string)
    requires Unique(s.entries) && (op.Getting? || op.Pruning? || op.Clearing? || op.Configuring?)
    ensures SameStamp(s.entries, Operate(s, op, now).entries, key)
  {
    if op.Configuring? {
      UnexpiredUnique(s.entries, op.ttl, now);
      BoundedOk(Unexpired(s.entries, op.ttl, now), op.maxSessions);
    }
    FewerSameStamp(s.entries, Operate(s, op, now).entries, key);
  }

  /** One operation stamps what it writes, and nothing else. */
  lemma OperationStamps(s: Store, op: Operation, now: real, at: real, key: string)
    requires Unique(s.entries) && StampsAt(op, at)
    ensures StampStep(StampOf(s.entries, key), Writes(s, op, now, key), at, StampOf(Operate(s, op, now).entries, key))
  {
    if op.Mutating? {
      WriteStamps(s, op, now, at, key);
    } else if op.Putting? {
      PutStamps(s, op, now, at, key);
    } else if op.Intaking? {
      IntakeStamps(s, op, now, key);
    } else {
      OtherStamps(s, op, now, key);
    }
  }

  // Over a run

  /** The same over any steps that keep a table sound and stamp what they write. */
  lemma {:induction false} StampsOverSteps(
      step: (Store, Timed, Store) -> bool, sound: Store -> bool, stamp: Store -> Option<real>, writes: (Store, Timed) -> bool,
      tables: seq<Store>, ops: seq<Timed>, skew: real)
    requires |tables| == |ops| + 1 && sound(tables[0]) && stamp(tables[0]).None?
    requires forall i {:trigger ops[i]} :: 0 <= i < |ops| ==> step(tables[i], ops[i], tables[i + 1])
    requires forall s, op, t {:trigger step(s, op, t)} :: sound(s) && step(s, op, t) ==>
      sound(t) && StampStep(stamp(s), writes(s, op), op.1 - skew, stamp(t))
    ensures sound(tables[|ops|])
    ensures var last := stamp(tables[|ops|]);
      last.None? || last == Some(LastOf(WritesOf(tables, ops, writes), TimesOf(ops)) - skew)
  {
    if ops != [] {
      var n := |ops| - 1;
      StampsOverSteps(step, sound, stamp, writes, tables[..n + 1], ops[..n], skew);
      assert step(tables[n], ops[n], tables[n + 1]);
      assert WritesOf(tables, ops, writes)[..n] == WritesOf(tables[..n + 1], ops[..n], writes);
      assert TimesOf(ops)[..n] == TimesOf(ops[..n]);
    }
  }

  ghost function OncePerKey(): Store -> bool {
    (s: Store) => Unique(s.entries)
  }

  lemma OperationKeepsUnique(s: Store, op: Operation, now: real)
    requires Unique(s.entries)
    ensures Unique(Operate(s, op, now).entries)
  {
    if op.Mutating? {
      Eviction.WrittenIsUnique(s, op.key, op.update, op.factory, now);
      BoundedOk(Eviction.Written(s, op.key, op.update, op.factory, now), s.maxSessions);
    } else if op.Putting? {
      var made := if op.session.id in s.intake then op.session.(firstRequestAt := Some(s.intake[op.session.id].receivedAt)) else op.session;
      AssignUnique(s.entries, op.session.id, made);
      BoundedOk(Assign(s.entries, op.session.id, made), s.maxSessions);
    } else {
      Eviction.OtherKeepsUnique(s, op, now);
    }
  }

  function Stamping(key: string): Store -> Option<real> {
    (s: Store) => StampOf(s.entries, key)
  }

  lemma StepsStamp(skew: real, key: string)
    ensures forall s, op, t {:trigger Stepping(skew)(s, op, t)} :: OncePerKey()(s) && Stepping(skew)(s, op, t) ==>
      OncePerKey()(t) && StampStep(Stamping(key)(s), Writing(key)(s, op), op.1 - skew, Stamping(key)(t))
  {
    forall s: Store, op: Timed, t: Store | OncePerKey()(s) && Stepping(skew)(s, op, t)
      ensures OncePerKey()(t) && StampStep(Stamping(key)(s), Writing(key)(s, op), op.1 - skew, Stamping(key)(t))
    {
      OperationStamps(s, op.0, op.1, op.1 - skew, key);
      OperationKeepsUnique(s, op.0, op.1);
    }
  }

  /** After any operations a session carries the time it was last written, by the other clock. */
  lemma StampIsLastWritten(tables: seq<Store>, ops: seq<Timed>, skew: real, key: string)
    requires IsRun(tables, ops, skew)
    ensures Unique(tables[|ops|].entries)
    ensures var stamp := StampOf(tables[|ops|].entries, key);
      stamp.None? || stamp == Some(LastWritten(tables, ops, key) - skew)
  {
    StepsStamp(skew, key);
    StampsOverSteps(Stepping(skew), OncePerKey(), Stamping(key), Writing(key), tables, ops, skew);
  }

  lemma PruneKeepsIff(s: Store, now: real, key: string)
    requires Unique(s.entries) && Has(s.entries, key)
    ensures Has(Prune(s, now).entries, key) <==> now - StampOf(s.entries, key).value <= s.ttl
  {
    var found := Lookup(s.entries, key).value;
    var kept := Prune(s, now).entries;
    HasIff(kept, key);
    if e :| e in kept && e.key == key {
      LookupUnique(s.entries, e);
    }
    assert Entry(key, found) in kept || Expired(found, s.ttl, now);
  }

  /**
   Over every run, pruning drops a session exactly when it was last written longer ago than the
   configured time, less the skew of the clocks; so does a lookup that finds it.
   */
  lemma ExpiredAfterIdleAndSkew(tables: seq<Store>, ops: seq<Timed>, skew: real, key: string, now: real)
    requires IsRun(tables, ops, skew) && Has(tables[|ops|].entries, key)
    ensures var t := tables[|ops|];
      && (Has(Prune(t, now).entries, key) <==> now - LastWritten(tables, ops, key) + skew <= t.ttl)
      && (Live(t, key, now).Some? <==> now - LastWritten(tables, ops, key) + skew <= t.ttl)
  {
    var t := tables[|ops|];
    StampIsLastWritten(tables, ops, skew, key);
    PruneKeepsIff(t, now, key);
    var found := Lookup(t.entries, key).value;
    if Expired(found, t.ttl, now) {
      HasIff(Without(t.entries, key), key);
    }
  }

  /** Pruning after this run drops a session exactly when it was last written longer ago than the configured time. */
  ghost predicate IsExact(tables: seq<Store>, ops: seq<Timed>, key: string, now: real)
    requires |tables| == |ops| + 1
  {
    var t := tables[|ops|];
    Has(t.entries, key) ==> (Has(Prune(t, now).entries, key) <==> now - LastWritten(tables, ops, key) <= t.ttl)
  }

  ghost predicate AlwaysExact(skew: real) {
    forall tables: seq<Store>, ops: seq<Timed>, key: string, now: real :: IsRun(tables, ops, skew) ==> IsExact(tables, ops, key, now)
  }

  const ROOM := Store(0.0, 1, [], map[], map[], 0)

  function StampedAt(at: real): Session {
    Session("a", "", "", None, None, at, at, None, 0, 0, 0.0, 0, 0, 0, 0.0, [])
  }

  /** One session stored at 0 by the table's clock. */
  function OneWrite(skew: real): seq<Timed> {
    [(Putting(StampedAt(0.0 - skew)), 0.0)]
  }

  function OneTable(skew: real): seq<Store> {
    [ROOM, Stored(ROOM, StampedAt(0.0 - skew))]
  }

  lemma OneWriteRuns(skew: real)
    ensures IsRun(OneTable(skew), OneWrite(skew), skew) && LastWritten(OneTable(skew), OneWrite(skew), "a") == 0.0
    ensures Has(OneTable(skew)[1].entries, "a") && OneTable(skew)[1].ttl == 0.0
  {
    var t := OneTable(skew)[1];
    assert IsStep(ROOM, OneWrite(skew)[0], t, skew);
    assert t.entries == [Entry("a", StampedAt(0.0 - skew))];
    assert t.entries[0].key == "a";
    assert WritesOf(OneTable(skew), OneWrite(skew), Writing("a"))[0] && TimesOf(OneWrite(skew))[0] == 0.0;
  }

  /** Expiry is exact over all runs if and only if stamps and table share one clock. */
  lemma ExpiryIsExactIffSameClock(skew: real)
    ensures AlwaysExact(skew) <==> skew == 0.0
  {
    if skew == 0.0 {
      forall tables: seq<Store>, ops: seq<Timed>, key: string, now: real | IsRun(tables, ops, skew) ensures IsExact(tables, ops, key, now) {
        if Has(tables[|ops|].entries, key) {
          ExpiredAfterIdleAndSkew(tables, ops, skew, key, now);
        }
      }
    } else {
      OneWriteRuns(skew);
      var now := if skew > 0.0 then 0.0 else 0.0 - skew;
      ExpiredAfterIdleAndSkew(OneTable(skew), OneWrite(skew), skew, "a", now);
      assert !IsExact(OneTable(skew), OneWrite(skew), "a", now);
    }
  }
}
