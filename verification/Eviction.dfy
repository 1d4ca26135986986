/**
 Which sessions survive eviction, exactly, and what that means for a session just created when
 its stamp was read before the store's lock was taken.
 */
module Eviction {
  import opened Wrappers
  import opened Sessions

  // Survival by rank

  /** How many entries carry a stamp newer than a given one, ties included or not. */
  function CountNewer(entries: seq<Entry>, stamp: real, ties: bool): (n: nat)
    ensures n <= |entries|
  {
    if entries == [] then 0
    else
      var last := entries[|entries| - 1].session.updatedAt;
      CountNewer(entries[..|entries| - 1], stamp, ties) + if last > stamp || (ties && last == stamp) then 1 else 0
  }

  lemma {:induction false} CountAppend(a: seq<Entry>, b: seq<Entry>, stamp: real, ties: bool)
    ensures CountNewer(a + b, stamp, ties) == CountNewer(a, stamp, ties) + CountNewer(b, stamp, ties)
  {
    if b == [] {
      assert a + b == a;
    } else {
      assert (a + b)[..|a + b| - 1] == a + b[..|b| - 1];
      CountAppend(a, b[..|b| - 1], stamp, ties);
    }
  }

  /** The entries evicted later than entry i: newer ones, and equally old ones that stand behind it. */
  function AheadOf(entries: seq<Entry>, i: nat): (n: nat)
    requires i < |entries|
    ensures n < |entries|
  {
    var stamp := entries[i].session.updatedAt;
    CountNewer(entries[..i], stamp, false) + CountNewer(entries[i + 1..], stamp, true)
  }

  lemma CountRemoved(entries: seq<Entry>, o: nat, stamp: real, ties: bool)
    requires o < |entries|
    requires entries[o].session.updatedAt < stamp || (!ties && entries[o].session.updatedAt == stamp)
    ensures CountNewer(RemoveAt(entries, o), stamp, ties) == CountNewer(entries, stamp, ties)
  {
    CountAppend(entries[..o], entries[o + 1..], stamp, ties);
    assert entries == entries[..o] + ([entries[o]] + entries[o + 1..]);
    CountAppend(entries[..o], [entries[o]] + entries[o + 1..], stamp, ties);
    CountAppend([entries[o]], entries[o + 1..], stamp, ties);
    assert [entries[o]][..0] == [];
    assert CountNewer([entries[o]], stamp, ties) == 0;
  }

  lemma RemovedBehind(entries: seq<Entry>, i: nat, o: nat)
    requires i < o < |entries| && entries[o].session.updatedAt < entries[i].session.updatedAt
    ensures RemoveAt(entries, o)[i] == entries[i] && AheadOf(RemoveAt(entries, o), i) == AheadOf(entries, i)
  {
    var rest, k := RemoveAt(entries, o), o - i - 1;
    assert rest[..i] == entries[..i];
    assert rest[i + 1..] == RemoveAt(entries[i + 1..], k);
    CountRemoved(entries[i + 1..], k, entries[i].session.updatedAt, true);
  }

  lemma RemovedBefore(entries: seq<Entry>, i: nat, o: nat)
    requires o < i < |entries| && entries[o].session.updatedAt <= entries[i].session.updatedAt
    ensures RemoveAt(entries, o)[i - 1] == entries[i] && AheadOf(RemoveAt(entries, o), i - 1) == AheadOf(entries, i)
  {
    var rest := RemoveAt(entries, o);
    assert rest[..i - 1] == RemoveAt(entries[..i], o);
    assert rest[i..] == entries[i + 1..];
    CountRemoved(entries[..i], o, entries[i].session.updatedAt, false);
  }

  /** Removing the oldest entry changes nobody's rank. */
  lemma RankKept(entries: seq<Entry>, i: nat)
    requires i < |entries| && i != Oldest(entries)
    ensures var o := Oldest(entries); var j := if i < o then i else i - 1;
      && j < |RemoveAt(entries, o)| && RemoveAt(entries, o)[j] == entries[i]
      && AheadOf(RemoveAt(entries, o), j) == AheadOf(entries, i)
  {
    var o := Oldest(entries);
    OldestIsLeast(entries);
    if i < o {
      RemovedBehind(entries, i, o);
    } else {
      RemovedBefore(entries, i, o);
    }
  }

  lemma {:induction false} AllNewer(entries: seq<Entry>, stamp: real, ties: bool)
    requires forall e :: e in entries ==> e.session.updatedAt > stamp || (ties && e.session.updatedAt == stamp)
    ensures CountNewer(entries, stamp, ties) == |entries|
  {
    if entries != [] {
      assert entries[|entries| - 1] in entries;
      AllNewer(entries[..|entries| - 1], stamp, ties);
    }
  }

  lemma EarlierAreNewer(entries: seq<Entry>)
    requires entries != []
    ensures forall e :: e in entries[..Oldest(entries)] ==> e.session.updatedAt > entries[Oldest(entries)].session.updatedAt
  {
    var o := Oldest(entries);
    OldestIsLeast(entries);
    forall e | e in entries[..o] ensures e.session.updatedAt > entries[o].session.updatedAt {
      var j :| 0 <= j < o && entries[..o][j] == e;
    }
  }

  lemma OldestHasAllAhead(entries: seq<Entry>)
    requires entries != []
    ensures AheadOf(entries, Oldest(entries)) == |entries| - 1
  {
    var o := Oldest(entries);
    EarlierAreNewer(entries);
    AllNewer(entries[..o], entries[o].session.updatedAt, false);
    NoneIsOlder(entries);
    AllNewer(entries[o + 1..], entries[o].session.updatedAt, true);
  }

  lemma {:induction false} EvictKeeps(entries: seq<Entry>, overflow: int)
    ensures forall e :: e in Evict(entries, overflow) ==> e in entries
    decreases overflow
  {
    if overflow > 0 && entries != [] {
      EvictKeeps(RemoveAt(entries, Oldest(entries)), overflow - 1);
    }
  }

  lemma OldestGoes(entries: seq<Entry>, overflow: int)
    requires Unique(entries) && 0 < overflow <= |entries|
    ensures entries[Oldest(entries)] !in Evict(entries, overflow)
  {
    RemoveAtKeeps(entries, Oldest(entries));
    EvictKeeps(RemoveAt(entries, Oldest(entries)), overflow - 1);
  }

  /** Keeping `e` at place i of `entries`, as the rank says. */
  ghost predicate KeptByRank(entries: seq<Entry>, overflow: int, i: nat)
    requires i < |entries|
  {
    entries[i] in Evict(entries, overflow) <==> AheadOf(entries, i) < |entries| - overflow
  }

  lemma KeptWithoutOldest(entries: seq<Entry>, overflow: int, i: nat, j: nat)
    requires 0 < overflow <= |entries| && i < |entries| && j < |RemoveAt(entries, Oldest(entries))|
    requires RemoveAt(entries, Oldest(entries))[j] == entries[i]
    requires AheadOf(RemoveAt(entries, Oldest(entries)), j) == AheadOf(entries, i)
    requires KeptByRank(RemoveAt(entries, Oldest(entries)), overflow - 1, j)
    ensures KeptByRank(entries, overflow, i)
  {
  }

  /** Eviction keeps an entry exactly when fewer entries are ahead of it than there is room for. */
  lemma {:induction false} KeptIff(entries: seq<Entry>, overflow: int, i: nat)
    requires Unique(entries) && 0 <= overflow <= |entries| && i < |entries|
    ensures KeptByRank(entries, overflow, i)
    decreases overflow
  {
    if overflow > 0 {
      var o := Oldest(entries);
      if i == o {
        OldestHasAllAhead(entries);
        OldestGoes(entries, overflow);
      } else {
        RemoveAtKeeps(entries, o);
        RankKept(entries, i);
        KeptIff(RemoveAt(entries, o), overflow - 1, if i < o then i else i - 1);
        KeptWithoutOldest(entries, overflow, i, if i < o then i else i - 1);
      }
    }
  }

  lemma BoundedKeepsIff(entries: seq<Entry>, maxSessions: nat, i: nat)
    requires Unique(entries) && i < |entries|
    ensures entries[i] in Bounded(entries, maxSessions) <==> AheadOf(entries, i) < maxSessions
  {
    if |entries| > maxSessions {
      KeptIff(entries, |entries| - maxSessions, i);
    }
  }

  function PositionOf(entries: seq<Entry>, key: string): (i: nat)
    requires Has(entries, key)
    ensures i < |entries| && entries[i].key == key
  {
    if entries[0].key == key then 0
    else
      assert Has(entries[1..], key) by {
        var i :| 0 <= i < |entries| && entries[i].key == key;
        assert entries[1..][i - 1].key == key;
      }
      1 + PositionOf(entries[1..], key)
  }

  /** A key is still there after the table is bounded exactly when its entry's rank is within the bound. */
  lemma BoundedHasIff(entries: seq<Entry>, maxSessions: nat, key: string)
    requires Unique(entries)
    ensures Has(Bounded(entries, maxSessions), key) <==> Has(entries, key) && AheadOf(entries, PositionOf(entries, key)) < maxSessions
  {
    var kept := Bounded(entries, maxSessions);
    BoundedOk(entries, maxSessions);
    HasIff(kept, key);
    if Has(entries, key) {
      var i := PositionOf(entries, key);
      BoundedKeepsIff(entries, maxSessions, i);
      if e :| e in kept && e.key == key {
        var j :| 0 <= j < |entries| && entries[j] == e;
        assert i == j;
      }
    } else if Has(kept, key) {
      HasSubset(kept, entries, key);
    }
  }

  // What a mutation leaves

  /** The table a mutation bounds. */
  function Written(s: Store, key: string, update: Session -> Session, factory: Option<Session>, now: real): seq<Entry> {
    var t := Touch(s, key, now);
    var found := Lookup(t.entries, key);
    if found.Some? then Assign(t.entries, key, update(found.value))
    else if factory.Some? then Assign(t.entries, key, update(Created(s, key, factory.value, now)))
    else t.entries
  }

  lemma WrittenIsUnique(s: Store, key: string, update: Session -> Session, factory: Option<Session>, now: real)
    requires Unique(s.entries)
    ensures Unique(Written(s, key, update, factory, now))
    ensures Live(s, key, now).Some? || factory.Some? ==>
      Mutated(s, key, update, factory, now).entries == Bounded(Written(s, key, update, factory, now), s.maxSessions)
  {
    var t := Touch(s, key, now);
    WithoutUnique(s.entries, key);
    var found := Lookup(t.entries, key);
    if found.Some? {
      AssignUnique(t.entries, key, update(found.value));
    } else if factory.Some? {
      AssignUnique(t.entries, key, update(Created(s, key, factory.value, now)));
    }
  }

  /**
   After a mutation that finds or creates its session, every session is what it was, or what was
   written, exactly when fewer than the maximum number of sessions are ahead of it, and gone
   otherwise. The written session is no exception: it can be the one to go.
   */
  lemma MutatedExactly(s: Store, key: string, update: Session -> Session, factory: Option<Session>, now: real, seen: string)
    requires Unique(s.entries) && (Live(s, key, now).Some? || factory.Some?)
    ensures var all := Written(s, key, update, factory, now);
      Lookup(Mutated(s, key, update, factory, now).entries, seen) ==
      if Has(all, seen) && AheadOf(all, PositionOf(all, seen)) < s.maxSessions then Lookup(all, seen) else None
  {
    var all := Written(s, key, update, factory, now);
    WrittenIsUnique(s, key, update, factory, now);
    BoundedHasIff(all, s.maxSessions, seen);
    BoundedOk(all, s.maxSessions);
    SubsetLookup(Bounded(all, s.maxSessions), all, seen);
  }

  /** A session just created survives exactly when fewer than the maximum number of sessions carry a newer stamp. */
  lemma CreatedSurvivesIff(s: Store, key: string, update: Session -> Session, made: Session, now: real)
    requires Unique(s.entries) && Live(s, key, now).None?
    ensures Has(Mutated(s, key, update, Some(made), now).entries, key) <==>
            CountNewer(Touch(s, key, now).entries, update(Created(s, key, made, now)).updatedAt, false) < s.maxSessions
  {
    var t := Touch(s, key, now);
    var created := Entry(key, update(Created(s, key, made, now)));
    var all := t.entries + [created];
    WrittenIsUnique(s, key, update, Some(made), now);
    assert Written(s, key, update, Some(made), now) == all;
    var n := |t.entries|;
    assert all[n] == created && all[..n] == t.entries && all[n + 1..] == [];
    BoundedKeepsIff(all, s.maxSessions, n);
    BoundedHasIff(all, s.maxSessions, key);
    assert PositionOf(all, key) == n;
  }

  // Stamps read before the lock

  /**
   Engine threads around one store: a decision's write reads the clock and takes the lock
   later, an outcome reads the clock inside the lock. `held` are the stamps read and not yet
   written. Every store operation comes with a reading of the store's own clock.
   */
  datatype World = World(store: Store, clock: real, held: map<nat, real>)

  datatype Step =
    | Tick(to: real)
    | Stamp(thread: nat)
    | Write(thread: nat, key: string, update: (Session, real) -> Session, made: real -> Session, storeNow: real)
    | Outcome(key: string, update: (Session, real) -> Session, storeNow: real)
    | Other(op: Operation, storeNow: real)

  function Stamped(update: (Session, real) -> Session, stamp: real): Session -> Session {
    session => update(session, stamp)
  }

  ghost function Advance(w: World, step: Step): World {
    match step
    case Tick(to) => if to < w.clock then w else w.(clock := to)
    case Stamp(thread) => w.(held := w.held[thread := w.clock])
    case Write(thread, key, update, made, storeNow) =>
      if thread !in w.held then w
      else
        var stamp := w.held[thread];
        w.(store := Mutated(w.store, key, Stamped(update, stamp), Some(made(stamp)), storeNow), held := w.held - {thread})
    case Outcome(key, update, storeNow) => w.(store := Mutated(w.store, key, Stamped(update, w.clock), None, storeNow))
    case Other(op, storeNow) => w.(store := Operate(w.store, op, storeNow))
  }

  ghost function Run(w: World, steps: seq<Step>): World {
    if steps == [] then w else Advance(Run(w, steps[..|steps| - 1]), steps[|steps| - 1])
  }

  /** Updates put their stamp on the session, and nothing else writes one. */
  ghost predicate Stamps(step: Step) {
    match step
    case Write(_, _, update, made, _) => forall s, t :: update(s, t).updatedAt == t
    case Outcome(_, update, _) => forall s, t :: update(s, t).updatedAt == t
    case Other(op, _) => !op.Mutating? && !op.Putting?
    case _ => true
  }

  ghost predicate NoneAfter(entries: seq<Entry>, clock: real) {
    forall e :: e in entries ==> e.session.updatedAt <= clock
  }

  ghost predicate Timely(w: World) {
    && Unique(w.store.entries) && NoneAfter(w.store.entries, w.clock)
    && forall k :: k in w.held ==> w.held[k] <= w.clock
  }

  lemma WrittenFrom(s: Store, key: string, update: Session -> Session, factory: Option<Session>, now: real, clock: real)
    requires NoneAfter(s.entries, clock) && forall session :: update(session).updatedAt <= clock
    ensures NoneAfter(Written(s, key, update, factory, now), clock)
  {
    assert NoneAfter(Touch(s, key, now).entries, clock);
  }

  lemma MutatedFrom(s: Store, key: string, update: Session -> Session, factory: Option<Session>, now: real, clock: real)
    requires Unique(s.entries) && NoneAfter(s.entries, clock) && forall session :: update(session).updatedAt <= clock
    ensures Unique(Mutated(s, key, update, factory, now).entries)
    ensures NoneAfter(Mutated(s, key, update, factory, now).entries, clock)
  {
    WrittenFrom(s, key, update, factory, now, clock);
    WrittenIsUnique(s, key, update, factory, now);
    var all := Written(s, key, update, factory, now);
    BoundedOk(all, s.maxSessions);
    EvictKeeps(all, |all| - s.maxSessions);
    assert Mutated(s, key, update, factory, now).entries == all || Mutated(s, key, update, factory, now).entries == Bounded(all, s.maxSessions);
  }

  lemma OtherKeepsStamps(s: Store, op: Operation, now: real, clock: real)
    requires NoneAfter(s.entries, clock) && !op.Mutating? && !op.Putting?
    ensures NoneAfter(Operate(s, op, now).entries, clock)
  {
    if op.Configuring? {
      var rest := Unexpired(s.entries, op.ttl, now);
      EvictKeeps(rest, |rest| - op.maxSessions);
    }
    if op.Intaking? {
      var t := Touch(PruneIntake(s, now), op.key, now);
      var found := Lookup(t.entries, op.key);
      if found.Some? {
        assert Entry(op.key, found.value) in t.entries;
      }
    }
  }

  lemma OtherKeepsUnique(s: Store, op: Operation, now: real)
    requires Unique(s.entries) && !op.Mutating? && !op.Putting?
    ensures Unique(Operate(s, op, now).entries)
  {
    if op.Configuring? {
      UnexpiredUnique(s.entries, op.ttl, now);
      BoundedOk(Unexpired(s.entries, op.ttl, now), op.maxSessions);
    } else if op.Pruning? {
      UnexpiredUnique(s.entries, s.ttl, now);
    } else if op.Getting? || op.Intaking? {
      WithoutUnique(s.entries, op.key);
      if op.Intaking? {
        var t := Touch(PruneIntake(s, now), op.key, now);
        var found := Lookup(t.entries, op.key);
        if found.Some? {
          AssignUnique(t.entries, op.key, found.value.(firstRequestAt := Some(Earliest(found.value.firstRequestAt, op.receivedAt))));
        }
      }
    }
  }

  lemma StepKeepsTimely(w: World, step: Step)
    requires Timely(w) && Stamps(step)
    ensures Timely(Advance(w, step))
  {
    match step
    case Write(thread, key, update, made, storeNow) =>
      if thread in w.held {
        var stamp := w.held[thread];
        assert forall session :: Stamped(update, stamp)(session).updatedAt == stamp;
        MutatedFrom(w.store, key, Stamped(update, stamp), Some(made(stamp)), storeNow, w.clock);
      }
    case Outcome(key, update, storeNow) =>
      assert forall session :: Stamped(update, w.clock)(session).updatedAt == w.clock;
      MutatedFrom(w.store, key, Stamped(update, w.clock), None, storeNow, w.clock);
    case Other(op, storeNow) =>
      OtherKeepsStamps(w.store, op, storeNow, w.clock);
      OtherKeepsUnique(w.store, op, storeNow);
    case _ =>
  }

  /** With one clock that does not run backwards, no stamp is ever ahead of it. */
  lemma {:induction false} StampsFollowTheClock(w: World, steps: seq<Step>)
    requires Timely(w) && forall step :: step in steps ==> Stamps(step)
    ensures Timely(Run(w, steps))
  {
    if steps != [] {
      StampsFollowTheClock(w, steps[..|steps| - 1]);
      assert steps[|steps| - 1] in steps;
      StepKeepsTimely(Run(w, steps[..|steps| - 1]), steps[|steps| - 1]);
    }
  }

  /**
   Over every run: a decision's write that creates its session leaves it in the table exactly
   when fewer than the maximum number of sessions were stamped after the write read the clock.
   */
  lemma CreationSurvivesIff(w: World, steps: seq<Step>, write: Step)
    requires Timely(w) && (forall step :: step in steps ==> Stamps(step)) && write.Write? && Stamps(write)
    requires var v := Run(w, steps);
      write.thread in v.held && Live(v.store, write.key, write.storeNow).None?
    ensures var v := Run(w, steps);
      Has(Advance(v, write).store.entries, write.key) <==>
      CountNewer(Touch(v.store, write.key, write.storeNow).entries, v.held[write.thread], false) < v.store.maxSessions
  {
    var v := Run(w, steps);
    var stamp := v.held[write.thread];
    StampsFollowTheClock(w, steps);
    CreatedSurvivesIff(v.store, write.key, Stamped(write.update, stamp), write.made(stamp), write.storeNow);
  }

  /** When nothing comes between reading the clock and writing, and there is room for one session, it always survives. */
  lemma AtomicCreationSurvives(w: World, steps: seq<Step>, write: Step)
    requires Timely(w) && (forall step :: step in steps ==> Stamps(step)) && write.Write? && Stamps(write)
    requires var v := Run(w, steps);
      Live(v.store, write.key, write.storeNow).None? && v.store.maxSessions > 0
    ensures var v := Run(w, steps);
      Has(Advance(Advance(v, Stamp(write.thread)), write).store.entries, write.key)
  {
    var v := Run(w, steps);
    StampsFollowTheClock(w, steps);
    JustCreatedSurvives(v.store, write.key, Stamped(write.update, v.clock), write.made(v.clock), write.storeNow);
  }

  // A session evicted by its own creation

  function At(id: string, stamp: real): Session {
    Session(id, "", "", None, None, stamp, stamp, None, 0, 0, 0.0, 0, 0, 0, 0.0, [])
  }

  function Restamp(s: Session, stamp: real): Session {
    s.(updatedAt := stamp)
  }

  const ONE_LIVE := World(Store(3600.0, 1, [Entry("a", At("a", 0.0))], map[], map[], 0), 10.0, map[])

  function Touching(): (Session, real) -> Session {
    (s, t) => Restamp(s, t)
  }

  function Making(id: string): real -> Session {
    t => At(id, t)
  }

  const STAMPED_A := Entry("a", At("a", 0.0).(updatedAt := 11.0))
  const AFTER_OUTCOME := World(Store(3600.0, 1, [STAMPED_A], map[], map[], 0), 11.0, map[1 := 10.0])

  lemma OutcomeStamps()
    ensures Mutated(ONE_LIVE.store, "a", Stamped(Touching(), 11.0), None, 0.0) == AFTER_OUTCOME.store
  {
    var a := Entry("a", At("a", 0.0));
    assert Lookup([a], "a") == Some(a.session);
    assert Stamped(Touching(), 11.0)(a.session) == STAMPED_A.session;
    assert Assign([a], "a", STAMPED_A.session) == [STAMPED_A];
  }

  lemma ReachOutcome()
    ensures Run(ONE_LIVE, [Stamp(1), Tick(11.0), Outcome("a", Touching(), 0.0)]) == AFTER_OUTCOME
  {
    ThreeSteps(ONE_LIVE, Stamp(1), Tick(11.0), Outcome("a", Touching(), 0.0));
    OutcomeStamps();
  }

  lemma BIsNew()
    ensures "a" != "b" && !Has(AFTER_OUTCOME.store.entries, "b")
    ensures Live(AFTER_OUTCOME.store, "b", 0.0).None? && Touch(AFTER_OUTCOME.store, "b", 0.0) == AFTER_OUTCOME.store
  {
    assert "a"[0] != "b"[0];
  }

  lemma BGoesAtOnce()
    ensures !Has(Mutated(AFTER_OUTCOME.store, "b", Stamped(Touching(), 10.0), Some(Making("b")(10.0)), 0.0).entries, "b")
  {
    BIsNew();
    assert [STAMPED_A][..0] == [];
    assert CountNewer([STAMPED_A], 10.0, false) == 1;
    CreatedSurvivesIff(AFTER_OUTCOME.store, "b", Stamped(Touching(), 10.0), Making("b")(10.0), 0.0);
  }

  const LATE: seq<Step> := [Stamp(1), Tick(11.0), Outcome("a", Touching(), 0.0)]
  const LATE_WRITE := Write(1, "b", Touching(), Making("b"), 0.0)

  lemma LateStepsAreProper()
    ensures Timely(ONE_LIVE) && Stamps(LATE_WRITE) && forall step :: step in LATE ==> Stamps(step)
  {
    assert Stamps(LATE[0]) && Stamps(LATE[1]) && Stamps(LATE[2]);
  }

  /** B's write reads 10, an outcome of A is stamped 11, and the write then evicts B at once: a run like any other. */
  lemma LateStampIsEvicted()
    ensures Timely(ONE_LIVE) && Stamps(LATE_WRITE) && forall step :: step in LATE ==> Stamps(step)
    ensures var v := Run(ONE_LIVE, LATE);
      && LATE_WRITE.thread in v.held && Live(v.store, LATE_WRITE.key, LATE_WRITE.storeNow).None?
      && !Has(Advance(v, LATE_WRITE).store.entries, "b")
  {
    LateStepsAreProper();
    ReachOutcome();
    BIsNew();
    BGoesAtOnce();
    AdvanceWrite(AFTER_OUTCOME, 1, "b");
  }

  lemma AdvanceWrite(w: World, thread: nat, key: string)
    requires thread in w.held
    ensures Advance(w, Write(thread, key, Touching(), Making(key), 0.0)).store
         == Mutated(w.store, key, Stamped(Touching(), w.held[thread]), Some(Making(key)(w.held[thread])), 0.0)
  {
  }

  lemma RunNext(w: World, steps: seq<Step>, next: Step)
    ensures Run(w, steps + [next]) == Advance(Run(w, steps), next)
  {
    assert (steps + [next])[..|steps|] == steps;
  }

  lemma ThreeSteps(w: World, a: Step, b: Step, c: Step)
    ensures Run(w, [a, b, c]) == Advance(Advance(Advance(w, a), b), c)
  {
    RunNext(w, [], a);
    RunNext(w, [a], b);
    RunNext(w, [a] + [b], c);
    assert [] + [a] == [a] && [a] + [b] + [c] == [a, b, c];
  }
}
