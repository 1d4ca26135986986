/** Session state and the bounded store that holds it. */
module Sessions {
  import opened Wrappers

  const EVENT_LIMIT: nat := 40

  /**
   Why a model was chosen: the reason itself, what a matrix strategy puts in front of it, and
   whether a label without members sent the turn to the global default.
   */
  datatype Reason = Reason(prefix: string, base: string, emptyTag: bool)

  datatype Event =
    | Switched(origin: string, target: string, reason: Reason, turn: int)
    | Decided(route: string, reason: Reason, turn: int)

  datatype Session = Session(
    id: string, route: string, tier: string, defaulted: Option<bool>, strategy: Option<string>,
    createdAt: real, updatedAt: real, firstRequestAt: Option<real>,
    turnCount: int, switchCount: nat, switchedAt: real, switchedAtTurn: int,
    failures: nat, truncations: nat, cost: real, events: seq<Event>)

  /** Appends an event, keeping only the newest ones. */
  function RecordEvent(s: Session, event: Event): (r: Session)
    ensures |s.events| <= EVENT_LIMIT ==> |r.events| <= EVENT_LIMIT
    ensures r.events != [] && r.events[|r.events| - 1] == event
    ensures |r.events| == (if |s.events| + 1 > EVENT_LIMIT then EVENT_LIMIT else |s.events| + 1)
    ensures r.events == (s.events + [event])[|s.events| + 1 - |r.events|..]
  {
    var events := s.events + [event];
    s.(events := if |events| > EVENT_LIMIT then events[|events| - EVENT_LIMIT..] else events)
  }

  /** A dictionary entry; dictionaries keep insertion order. */
  datatype Entry = Entry(key: string, session: Session)

  datatype Intake = Intake(receivedAt: real, order: nat)

  datatype Store = Store(
    ttl: real, maxSessions: nat, entries: seq<Entry>,
    intake: map<string, Intake>, lastSeen: map<string, real>, order: nat)

  // The session dictionary

  predicate Has(entries: seq<Entry>, key: string) {
    exists i :: 0 <= i < |entries| && entries[i].key == key
  }

  function Lookup(entries: seq<Entry>, key: string): (session: Option<Session>)
    ensures session.Some? <==> Has(entries, key)
    ensures session.Some? ==> Entry(key, session.value) in entries
  {
    if entries == [] then None
    else if entries[0].key == key then Some(entries[0].session)
    else
      var rest := Lookup(entries[1..], key);
      assert forall i :: 0 < i < |entries| ==> entries[i] == entries[1..][i - 1];
      rest
  }

  function Without(entries: seq<Entry>, key: string): (rest: seq<Entry>)
    ensures |rest| <= |entries|
    ensures forall e :: e in rest <==> e in entries && e.key != key
  {
    if entries == [] then []
    else (if entries[0].key == key then [] else [entries[0]]) + Without(entries[1..], key)
  }

  /** Assigning to a key keeps its place, or appends it. */
  function Assign(entries: seq<Entry>, key: string, session: Session): (result: seq<Entry>)
    ensures |result| == |entries| + if Has(entries, key) then 0 else 1
    ensures Entry(key, session) in result
    ensures forall e :: e in result ==> e == Entry(key, session) || e in entries
    ensures !Has(entries, key) ==> result == entries + [Entry(key, session)]
  {
    if entries == [] then [Entry(key, session)]
    else if entries[0].key == key then
      assert Has(entries, key);
      [Entry(key, session)] + entries[1..]
    else
      assert forall i :: 0 < i < |entries| ==> entries[i] == entries[1..][i - 1];
      assert forall i :: 0 <= i < |entries[1..]| ==> entries[1..][i] == entries[i + 1];
      [entries[0]] + Assign(entries[1..], key, session)
  }

  predicate Expired(session: Session, ttl: real, now: real) {
    now - session.updatedAt > ttl
  }

  function Unexpired(entries: seq<Entry>, ttl: real, now: real): (rest: seq<Entry>)
    ensures |rest| <= |entries|
    ensures forall e :: e in rest <==> e in entries && !Expired(e.session, ttl, now)
  {
    if entries == [] then []
    else (if Expired(entries[0].session, ttl, now) then [] else [entries[0]]) + Unexpired(entries[1..], ttl, now)
  }

  // Eviction

  /** The first of the least recently updated entries: the head of a stable sort. */
  function Oldest(entries: seq<Entry>): (i: nat)
    requires entries != []
    ensures i < |entries|
  {
    var n := |entries| - 1;
    if n == 0 then 0
    else
      var i := Oldest(entries[..n]);
      if entries[n].session.updatedAt < entries[i].session.updatedAt then n else i
  }

  /** It is the first of the least recently updated ones. */
  lemma {:induction false} OldestIsLeast(entries: seq<Entry>)
    requires entries != []
    ensures var i := Oldest(entries);
      && (forall j :: 0 <= j < |entries| ==> entries[i].session.updatedAt <= entries[j].session.updatedAt)
      && (forall j :: 0 <= j < i ==> entries[i].session.updatedAt < entries[j].session.updatedAt)
  {
    var n := |entries| - 1;
    if n > 0 {
      OldestIsLeast(entries[..n]);
      assert forall j :: 0 <= j < n ==> entries[..n][j] == entries[j];
    }
  }

  function RemoveAt(entries: seq<Entry>, i: nat): seq<Entry>
    requires i < |entries|
  {
    entries[..i] + entries[i + 1..]
  }

  function Evict(entries: seq<Entry>, overflow: int): seq<Entry>
    decreases overflow
  {
    if overflow <= 0 || entries == [] then entries
    else Evict(RemoveAt(entries, Oldest(entries)), overflow - 1)
  }

  function Bounded(entries: seq<Entry>, maxSessions: nat): seq<Entry> {
    Evict(entries, |entries| - maxSessions)
  }

  ghost predicate Unique(entries: seq<Entry>) {
    forall i, j :: 0 <= i < j < |entries| ==> entries[i].key != entries[j].key
  }

  lemma RemoveAtKeeps(entries: seq<Entry>, i: nat)
    requires i < |entries| && Unique(entries)
    ensures Unique(RemoveAt(entries, i))
    ensures forall e :: e in RemoveAt(entries, i) <==> e in entries && e != entries[i]
  {
    var rest := RemoveAt(entries, i);
    forall e | e in entries && e != entries[i] ensures e in rest {
      var j :| 0 <= j < |entries| && entries[j] == e;
      assert e == rest[if j < i then j else j - 1];
    }
  }

  /** Nothing that stays is older than anything that goes. */
  ghost predicate KeepsTheNewest(entries: seq<Entry>, kept: seq<Entry>) {
    && (forall e :: e in kept ==> e in entries)
    && forall e, gone :: e in kept && gone in entries && gone !in kept ==> gone.session.updatedAt <= e.session.updatedAt
  }

  lemma OneMoreGone(entries: seq<Entry>, oldest: Entry, rest: seq<Entry>, kept: seq<Entry>)
    requires KeepsTheNewest(rest, kept)
    requires forall e :: e in entries ==> oldest.session.updatedAt <= e.session.updatedAt
    requires forall e :: e in entries <==> e in rest || e == oldest
    ensures KeepsTheNewest(entries, kept)
  {
  }

  lemma NoneIsOlder(entries: seq<Entry>)
    requires entries != []
    ensures forall e :: e in entries ==> entries[Oldest(entries)].session.updatedAt <= e.session.updatedAt
  {
    OldestIsLeast(entries);
  }

  lemma {:induction false} EvictKeepsUnique(entries: seq<Entry>, overflow: int)
    requires Unique(entries) && 0 <= overflow <= |entries|
    ensures Unique(Evict(entries, overflow)) && |Evict(entries, overflow)| == |entries| - overflow
    decreases overflow
  {
    if overflow > 0 {
      RemoveAtKeeps(entries, Oldest(entries));
      EvictKeepsUnique(RemoveAt(entries, Oldest(entries)), overflow - 1);
    }
  }

  lemma {:induction false} EvictKeepsNewest(entries: seq<Entry>, overflow: int)
    requires Unique(entries) && 0 <= overflow <= |entries|
    ensures KeepsTheNewest(entries, Evict(entries, overflow))
    decreases overflow
  {
    if overflow > 0 {
      var oldest, rest := entries[Oldest(entries)], RemoveAt(entries, Oldest(entries));
      RemoveAtKeeps(entries, Oldest(entries));
      EvictKeepsNewest(rest, overflow - 1);
      NoneIsOlder(entries);
      OneMoreGone(entries, oldest, rest, Evict(rest, overflow - 1));
    }
  }

  /** Eviction removes exactly the overflow, and nothing that stays is older than anything that goes. */
  lemma EvictsTheOldest(entries: seq<Entry>, overflow: int)
    requires Unique(entries) && 0 <= overflow <= |entries|
    ensures var kept := Evict(entries, overflow);
      && Unique(kept)
      && |kept| == |entries| - overflow
      && KeepsTheNewest(entries, kept)
  {
    EvictKeepsUnique(entries, overflow);
    EvictKeepsNewest(entries, overflow);
  }

  /** An entry that is last in insertion order and not older than any other outlives all of them. */
  lemma {:induction false} NewestSurvives(entries: seq<Entry>, overflow: int)
    requires entries != [] && overflow < |entries|
    requires forall i :: 0 <= i < |entries| ==> entries[i].session.updatedAt <= entries[|entries| - 1].session.updatedAt
    ensures var kept := Evict(entries, overflow); kept != [] && kept[|kept| - 1] == entries[|entries| - 1]
    decreases overflow
  {
    if overflow > 0 {
      var i := Oldest(entries);
      OldestIsLeast(entries);
      var rest := RemoveAt(entries, i);
      assert entries[0].session.updatedAt <= entries[|entries| - 1].session.updatedAt;
      assert rest[|rest| - 1] == entries[|entries| - 1];
      NewestSurvives(rest, overflow - 1);
    }
  }

  // The operations, as functions of the store and one clock reading

  function PruneIntake(s: Store, now: real): Store {
    var keep := map k | k in s.lastSeen && now - s.lastSeen[k] <= s.ttl :: s.lastSeen[k];
    s.(lastSeen := keep, intake := map k | k in s.intake && k in keep :: s.intake[k])
  }

  function DropIntake(s: Store, key: string): Store {
    s.(intake := s.intake - {key}, lastSeen := s.lastSeen - {key})
  }

  /** The oldest pending intake by order number. */
  predicate IsFirstIntake(intake: map<string, Intake>, key: string) {
    key in intake && forall k :: k in intake ==> intake[key].order <= intake[k].order
  }

  /** A lookup drops the session it finds expired. */
  function Touch(s: Store, key: string, now: real): Store {
    var found := Lookup(s.entries, key);
    if found.Some? && Expired(found.value, s.ttl, now) then s.(entries := Without(s.entries, key)) else s
  }

  function Live(s: Store, key: string, now: real): Option<Session> {
    Lookup(Touch(s, key, now).entries, key)
  }

  /** Updates a session in its place, creating it when there is a factory; then bounds the table. */
  function Mutated(s: Store, key: string, update: Session -> Session, factory: Option<Session>, now: real): Store {
    var t := Touch(s, key, now);
    var found := Lookup(t.entries, key);
    if found.Some? then
      t.(entries := Bounded(Assign(t.entries, key, update(found.value)), t.maxSessions))
    else if factory.None? then t
    else
      var p := PruneIntake(t, now);
      var made := if key in p.intake then factory.value.(firstRequestAt := Some(p.intake[key].receivedAt)) else factory.value;
      DropIntake(p, key).(entries := Bounded(Assign(p.entries, key, update(made)), p.maxSessions))
  }

  function Stored(s: Store, session: Session): Store {
    var made := if session.id in s.intake then session.(firstRequestAt := Some(s.intake[session.id].receivedAt)) else session;
    DropIntake(s, session.id).(entries := Bounded(Assign(s.entries, session.id, made), s.maxSessions))
  }

  function Prune(s: Store, now: real): Store {
    s.(entries := Unexpired(s.entries, s.ttl, now))
  }

  function Earliest(known: Option<real>, at: real): real {
    if known.Some? && known.value <= at then known.value else at
  }

  ghost function FirstIntake(intake: map<string, Intake>): (first: string)
    requires |intake| > 0
    ensures IsFirstIntake(intake, first)
  {
    FirstIntakeExists(intake);
    var first :| IsFirstIntake(intake, first);
    first
  }

  /** Drops the earliest intakes beyond the bound. */
  ghost function BoundedIntake(intake: map<string, Intake>, maxSessions: nat): map<string, Intake>
    decreases |intake|
  {
    if |intake| <= maxSessions then intake
    else
      var first := FirstIntake(intake);
      assert (intake - {first}).Keys == intake.Keys - {first};
      BoundedIntake(intake - {first}, maxSessions)
  }

  lemma BoundedStep(intake: map<string, Intake>, maxSessions: nat, order: nat, first: string)
    requires |intake| > maxSessions && IsFirstIntake(intake, first) && DistinctOrders(intake, order)
    ensures (intake - {first}).Keys == intake.Keys - {first} && DistinctOrders(intake - {first}, order)
    ensures BoundedIntake(intake - {first}, maxSessions) == BoundedIntake(intake, maxSessions)
  {
    assert first == FirstIntake(intake);
  }

  ghost predicate SubMap(part: map<string, real>, whole: map<string, real>) {
    forall k :: k in part ==> k in whole && part[k] == whole[k]
  }

  lemma SubMapIs(part: map<string, real>, whole: map<string, real>, kept: map<string, Intake>)
    requires SubMap(part, whole) && part.Keys == kept.Keys
    ensures part == map k | k in whole && k in kept :: whole[k]
  {
  }

  ghost function BoundIntakes(s: Store): Store {
    var kept := BoundedIntake(s.intake, s.maxSessions);
    s.(intake := kept, lastSeen := map k | k in s.lastSeen && k in kept :: s.lastSeen[k])
  }

  /** Adds an intake candidate behind all others, with room for it. */
  ghost function AddIntake(s: Store, key: string, receivedAt: real, now: real): Store {
    BoundIntakes(Added(s, key, receivedAt, now))
  }

  ghost function RecordedIntake(s: Store, key: string, receivedAt: real, now: real): Store {
    var t := Touch(PruneIntake(s, now), key, now);
    var found := Lookup(t.entries, key);
    if found.Some? then
      t.(entries := Assign(t.entries, key, found.value.(firstRequestAt := Some(Earliest(found.value.firstRequestAt, receivedAt)))))
    else if key in t.intake then
      t.(intake := t.intake[key := Intake(Earliest(Some(t.intake[key].receivedAt), receivedAt), t.intake[key].order)],
         lastSeen := t.lastSeen[key := now])
    else AddIntake(t, key, receivedAt, now)
  }

  ghost function Configured(s: Store, ttl: real, maxSessions: nat, now: real): Store {
    var p := BoundIntakes(PruneIntake(s.(ttl := ttl, maxSessions := maxSessions), now));
    p.(entries := Bounded(Unexpired(p.entries, ttl, now), maxSessions))
  }

  lemma {:induction false} FirstIntakeExists(intake: map<string, Intake>)
    requires |intake| > 0
    ensures exists k :: IsFirstIntake(intake, k)
  {
    var k :| k in intake.Keys;
    var rest := intake - {k};
    assert rest.Keys == intake.Keys - {k};
    if rest.Keys == {} {
      assert intake.Keys == {k};
      assert IsFirstIntake(intake, k);
    } else {
      FirstIntakeExists(rest);
      var first :| IsFirstIntake(rest, first);
      forall l | l in intake ensures l == k || intake[first].order <= intake[l].order {
        if l != k {
          assert l in rest.Keys && rest[l] == intake[l];
        }
      }
      assert first in rest.Keys;
      if intake[k].order <= intake[first].order {
        assert IsFirstIntake(intake, k);
      } else {
        assert IsFirstIntake(intake, first);
      }
    }
  }

  // What every operation keeps

  ghost predicate DistinctOrders(intake: map<string, Intake>, order: nat) {
    && (forall k :: k in intake ==> intake[k].order <= order)
    && (forall k, l :: k in intake && l in intake && k != l ==> intake[k].order != intake[l].order)
  }

  ghost predicate Valid(s: Store) {
    && Unique(s.entries)
    && (forall e :: e in s.entries ==> e.key == e.session.id)
    && |s.entries| <= s.maxSessions
    && |s.intake| <= s.maxSessions
    && s.intake.Keys == s.lastSeen.Keys
    && (forall k :: k in s.intake ==> !Has(s.entries, k))
    && DistinctOrders(s.intake, s.order)
  }

  lemma HasIff(entries: seq<Entry>, key: string)
    ensures Has(entries, key) <==> exists e :: e in entries && e.key == key
  {
  }

  lemma HasSubset(a: seq<Entry>, b: seq<Entry>, key: string)
    requires (forall e :: e in a ==> e in b) && Has(a, key)
    ensures Has(b, key)
  {
    HasIff(a, key);
    HasIff(b, key);
  }

  lemma {:induction false} WithoutUnique(entries: seq<Entry>, key: string)
    requires Unique(entries)
    ensures Unique(Without(entries, key))
  {
    if entries != [] {
      WithoutUnique(entries[1..], key);
      var rest := Without(entries[1..], key);
      forall j | 0 <= j < |rest| ensures rest[j].key != entries[0].key {
        assert rest[j] in entries[1..];
        var k :| 0 <= k < |entries[1..]| && entries[1..][k] == rest[j];
        assert entries[k + 1] == rest[j];
      }
    }
  }

  lemma {:induction false} UnexpiredUnique(entries: seq<Entry>, ttl: real, now: real)
    requires Unique(entries)
    ensures Unique(Unexpired(entries, ttl, now))
  {
    if entries != [] {
      UnexpiredUnique(entries[1..], ttl, now);
      var rest := Unexpired(entries[1..], ttl, now);
      forall j | 0 <= j < |rest| ensures rest[j].key != entries[0].key {
        assert rest[j] in entries[1..];
        var k :| 0 <= k < |entries[1..]| && entries[1..][k] == rest[j];
        assert entries[k + 1] == rest[j];
      }
    }
  }

  lemma {:induction false} AssignUnique(entries: seq<Entry>, key: string, session: Session)
    requires Unique(entries)
    ensures Unique(Assign(entries, key, session))
    ensures forall e :: e in Assign(entries, key, session) ==> e == Entry(key, session) || (e in entries && e.key != key)
  {
    if entries != [] {
      if entries[0].key != key {
        AssignUnique(entries[1..], key, session);
      }
      var rest := if entries[0].key == key then entries[1..] else Assign(entries[1..], key, session);
      forall j | 0 <= j < |rest| ensures rest[j].key != entries[0].key {
        if rest[j] in entries[1..] {
          var k :| 0 <= k < |entries[1..]| && entries[1..][k] == rest[j];
          assert entries[k + 1] == rest[j];
        }
      }
    }
  }

  lemma BoundedOk(entries: seq<Entry>, maxSessions: nat)
    requires Unique(entries)
    ensures var kept := Bounded(entries, maxSessions);
      && Unique(kept) && |kept| == (if |entries| <= maxSessions then |entries| else maxSessions)
      && KeepsTheNewest(entries, kept)
  {
    if |entries| > maxSessions {
      EvictsTheOldest(entries, |entries| - maxSessions);
    }
  }

  lemma FewerKeys<V>(a: map<string, V>, b: map<string, V>)
    requires a.Keys <= b.Keys
    ensures |a| <= |b|
  {
    SubsetSize(a.Keys, b.Keys);
  }

  lemma {:induction false} SubsetSize(a: set<string>, b: set<string>)
    requires a <= b
    ensures |a| <= |b|
  {
    if a != {} {
      var k :| k in a;
      SubsetSize(a - {k}, b - {k});
    }
  }

  lemma PruneIntakeValid(s: Store, now: real)
    requires Valid(s)
    ensures Valid(PruneIntake(s, now))
  {
    FewerKeys(PruneIntake(s, now).intake, s.intake);
  }

  lemma DropIntakeValid(s: Store, key: string)
    requires Valid(s)
    ensures Valid(DropIntake(s, key)) && key !in DropIntake(s, key).intake
  {
    FewerKeys(DropIntake(s, key).intake, s.intake);
  }

  /** Replacing the session table keeps the rest of the invariant. */
  lemma EntriesValid(s: Store, entries: seq<Entry>, key: string)
    requires Valid(s) && key !in s.intake
    requires Unique(entries) && |entries| <= s.maxSessions
    requires forall e :: e in entries ==> e.key == e.session.id && (e in s.entries || e.key == key)
    ensures Valid(s.(entries := entries))
  {
    forall k | k in s.intake ensures !Has(entries, k) {
      if Has(entries, k) {
        var i :| 0 <= i < |entries| && entries[i].key == k;
        assert entries[i] in entries;
        HasIff(s.entries, k);
      }
    }
  }

  lemma TouchValid(s: Store, key: string, now: real)
    requires Valid(s)
    ensures Valid(Touch(s, key, now))
  {
    WithoutUnique(s.entries, key);
    if key in s.intake {
      assert Touch(s, key, now) == s;
    } else {
      EntriesValid(s, Touch(s, key, now).entries, key);
    }
  }

  ghost predicate KeepsId(update: Session -> Session) {
    forall session :: update(session).id == session.id
  }

  lemma AssignValid(s: Store, key: string, session: Session)
    requires Valid(s) && key !in s.intake && session.id == key
    ensures Valid(s.(entries := Bounded(Assign(s.entries, key, session), s.maxSessions)))
  {
    AssignUnique(s.entries, key, session);
    BoundedOk(Assign(s.entries, key, session), s.maxSessions);
    EntriesValid(s, Bounded(Assign(s.entries, key, session), s.maxSessions), key);
  }

  lemma MutateValid(s: Store, key: string, update: Session -> Session, factory: Option<Session>, now: real)
    requires Valid(s) && KeepsId(update) && (factory.Some? ==> factory.value.id == key)
    ensures Valid(Mutated(s, key, update, factory, now))
  {
    var t := Touch(s, key, now);
    TouchValid(s, key, now);
    var found := Lookup(t.entries, key);
    if found.Some? {
      assert key !in t.intake;
      AssignValid(t, key, update(found.value));
    } else if factory.Some? {
      var p := PruneIntake(t, now);
      PruneIntakeValid(t, now);
      DropIntakeValid(p, key);
      var made := if key in p.intake then factory.value.(firstRequestAt := Some(p.intake[key].receivedAt)) else factory.value;
      AssignValid(DropIntake(p, key), key, update(made));
    }
  }

  lemma PutValid(s: Store, session: Session)
    requires Valid(s)
    ensures Valid(Stored(s, session))
  {
    DropIntakeValid(s, session.id);
    var made := if session.id in s.intake then session.(firstRequestAt := Some(s.intake[session.id].receivedAt)) else session;
    AssignValid(DropIntake(s, session.id), session.id, made);
  }

  lemma PruneValid(s: Store, now: real)
    requires Valid(s)
    ensures Valid(Prune(s, now))
  {
    UnexpiredUnique(s.entries, s.ttl, now);
    forall k | k in s.intake ensures !Has(Prune(s, now).entries, k) {
      HasIff(s.entries, k);
      HasIff(Prune(s, now).entries, k);
    }
  }

  ghost predicate Submap(a: map<string, Intake>, b: map<string, Intake>) {
    forall k :: k in a ==> k in b && a[k] == b[k]
  }

  ghost predicate KeepsLatest(kept: map<string, Intake>, all: map<string, Intake>) {
    forall k, gone :: k in kept && gone in all && gone !in kept && k in all ==> all[gone].order < all[k].order
  }

  /** Bounding the intakes keeps the latest ones. */
  lemma {:induction false} BoundedIntakeOk(intake: map<string, Intake>, order: nat, maxSessions: nat)
    requires DistinctOrders(intake, order)
    ensures var kept := BoundedIntake(intake, maxSessions);
      && |kept| == (if |intake| <= maxSessions then |intake| else maxSessions)
      && Submap(kept, intake) && KeepsLatest(kept, intake)
    decreases |intake|
  {
    if |intake| > maxSessions {
      var first := FirstIntake(intake);
      var rest := intake - {first};
      assert rest.Keys == intake.Keys - {first};
      BoundedIntakeOk(rest, order, maxSessions);
      var kept := BoundedIntake(rest, maxSessions);
      forall k, gone | k in kept && gone in intake && gone !in kept && k in intake
        ensures intake[gone].order < intake[k].order
      {
        if gone != first {
          assert gone in rest && rest[gone] == intake[gone] && rest[k] == intake[k];
        }
      }
    }
  }

  lemma BoundIntakesOk(s: Store)
    requires s.intake.Keys == s.lastSeen.Keys && DistinctOrders(s.intake, s.order)
    ensures var t := BoundIntakes(s);
      && t.intake.Keys == t.lastSeen.Keys && DistinctOrders(t.intake, t.order) && |t.intake| <= t.maxSessions
      && Submap(t.intake, s.intake)
  {
    BoundedIntakeOk(s.intake, s.order, s.maxSessions);
  }

  function Added(s: Store, key: string, receivedAt: real, now: real): Store {
    s.(
      order := s.order + 1,
      intake := s.intake[key := Intake(receivedAt, s.order + 1)],
      lastSeen := s.lastSeen[key := now])
  }

  lemma AddedIsDistinct(s: Store, key: string, receivedAt: real, now: real)
    requires s.intake.Keys == s.lastSeen.Keys && DistinctOrders(s.intake, s.order)
    ensures var t := Added(s, key, receivedAt, now);
      t.intake.Keys == t.lastSeen.Keys && DistinctOrders(t.intake, t.order)
  {
  }

  lemma AddIntakeValid(s: Store, key: string, receivedAt: real, now: real)
    requires Valid(s) && !Has(s.entries, key) && key !in s.intake
    ensures Valid(AddIntake(s, key, receivedAt, now))
  {
    BoundIntakesOk(Added(s, key, receivedAt, now));
  }

  /** Intake never creates a session, keeps the invariant, and leaves the earliest known arrival behind. */
  lemma RecordedIntakeValid(s: Store, key: string, receivedAt: real, now: real)
    requires Valid(s)
    ensures Valid(RecordedIntake(s, key, receivedAt, now))
  {
    PruneIntakeValid(s, now);
    TouchValid(PruneIntake(s, now), key, now);
    var t := Touch(PruneIntake(s, now), key, now);
    var found := Lookup(t.entries, key);
    if found.Some? {
      var updated := found.value.(firstRequestAt := Some(Earliest(found.value.firstRequestAt, receivedAt)));
      assert key !in t.intake;
      AssignUnique(t.entries, key, updated);
      EntriesValid(t, Assign(t.entries, key, updated), key);
    } else if key in t.intake {
      var u := RecordedIntake(s, key, receivedAt, now);
      assert u.intake.Keys == t.intake.Keys;
      FewerKeys(u.intake, t.intake);
    } else {
      AddIntakeValid(t, key, receivedAt, now);
    }
  }

  lemma ConfiguredValid(s: Store, ttl: real, maxSessions: nat, now: real)
    requires Valid(s)
    ensures Valid(Configured(s, ttl, maxSessions, now))
  {
    var p := PruneIntake(s.(ttl := ttl, maxSessions := maxSessions), now);
    BoundIntakesOk(p);
    UnexpiredUnique(s.entries, ttl, now);
    BoundedOk(Unexpired(s.entries, ttl, now), maxSessions);
    var t := Configured(s, ttl, maxSessions, now);
    forall k | k in t.intake ensures !Has(t.entries, k) {
      HasIff(s.entries, k);
      HasIff(t.entries, k);
    }
  }

  lemma AppendedSurvives(entries: seq<Entry>, entry: Entry, maxSessions: nat)
    requires maxSessions > 0
    requires forall e :: e in entries ==> e.session.updatedAt <= entry.session.updatedAt
    ensures Has(Bounded(entries + [entry], maxSessions), entry.key)
  {
    var all := entries + [entry];
    forall i | 0 <= i < |all| ensures all[i].session.updatedAt <= all[|all| - 1].session.updatedAt {
      if i < |entries| {
        assert entries[i] in entries;
      }
    }
    NewestSurvives(all, |all| - maxSessions);
    var kept := Bounded(all, maxSessions);
    assert kept[|kept| - 1] == entry;
  }

  /** What a factory's session becomes: an earlier intake gives it its first request time. */
  function Created(s: Store, key: string, made: Session, now: real): Session {
    var p := PruneIntake(Touch(s, key, now), now);
    if key in p.intake then made.(firstRequestAt := Some(p.intake[key].receivedAt)) else made
  }

  /** With room for one session, one just created survives when no session carries a newer stamp than it. */
  lemma JustCreatedSurvives(s: Store, key: string, update: Session -> Session, made: Session, now: real)
    requires s.maxSessions > 0 && Live(s, key, now).None?
    requires forall e :: e in s.entries ==> e.session.updatedAt <= update(Created(s, key, made, now)).updatedAt
    ensures Has(Mutated(s, key, update, Some(made), now).entries, key)
  {
    var t := Touch(s, key, now);
    var created := Entry(key, update(Created(s, key, made, now)));
    assert !Has(t.entries, key);
    assert Assign(t.entries, key, created.session) == t.entries + [created];
    AppendedSurvives(t.entries, created, s.maxSessions);
  }

  // One session's view of the store

  lemma {:induction false} AssignLookup(entries: seq<Entry>, key: string, session: Session, seen: string)
    ensures Lookup(Assign(entries, key, session), seen) == if seen == key then Some(session) else Lookup(entries, seen)
  {
    if entries != [] && entries[0].key != key {
      AssignLookup(entries[1..], key, session, seen);
    }
  }

  lemma {:induction false} LookupUnique(entries: seq<Entry>, entry: Entry)
    requires Unique(entries) && entry in entries
    ensures Lookup(entries, entry.key) == Some(entry.session)
  {
    if entries[0] != entry {
      var i :| 0 <= i < |entries| && entries[i] == entry;
      assert entries[0].key != entries[i].key;
      assert entries[1..][i - 1] == entry;
      LookupUnique(entries[1..], entry);
    }
  }

  lemma {:induction false} SubsetLookup(kept: seq<Entry>, all: seq<Entry>, seen: string)
    requires Unique(all) && forall e :: e in kept ==> e in all
    ensures Lookup(kept, seen).None? || Lookup(kept, seen) == Lookup(all, seen)
  {
    var found := Lookup(kept, seen);
    if found.Some? {
      LookupUnique(all, Entry(seen, found.value));
    }
  }

  /** After a mutation a session is what it was updated to, or untouched if it is another one, or evicted. */
  lemma MutatedLookup(s: Store, key: string, update: Session -> Session, factory: Option<Session>, now: real, seen: string)
    requires Unique(s.entries)
    ensures var before := Live(s, key, now); var after := Lookup(Mutated(s, key, update, factory, now).entries, seen);
      || after.None?
      || (seen != key && after == Lookup(s.entries, seen))
      || (seen == key && before.Some? && after == Some(update(before.value)))
      || (seen == key && before.None? && factory.Some? && after == Some(update(Created(s, key, factory.value, now))))
  {
    var t := Touch(s, key, now);
    WithoutUnique(s.entries, key);
    assert Unique(t.entries);
    SubsetLookup(t.entries, s.entries, seen);
    var before := Lookup(t.entries, key);
    if before.Some? || factory.Some? {
      var written := if before.Some? then update(before.value) else update(Created(s, key, factory.value, now));
      var all := Assign(t.entries, key, written);
      AssignUnique(t.entries, key, written);
      BoundedOk(all, s.maxSessions);
      SubsetLookup(Bounded(all, s.maxSessions), all, seen);
      AssignLookup(t.entries, key, written, seen);
    }
  }

  // Every operation, in any order

  datatype Operation =
    | Intaking(key: string, receivedAt: real)
    | Getting(key: string)
    | Mutating(key: string, update: Session -> Session, factory: Option<Session>)
    | Putting(session: Session)
    | Pruning
    | Clearing
    | Configuring(ttl: real, maxSessions: nat)

  ghost function Operate(s: Store, op: Operation, now: real): Store {
    match op
    case Intaking(key, receivedAt) => RecordedIntake(s, key, receivedAt, now)
    case Getting(key) => Touch(s, key, now)
    case Mutating(key, update, factory) => Mutated(s, key, update, factory, now)
    case Putting(session) => Stored(s, session)
    case Pruning => Prune(s, now)
    case Clearing => s.(entries := [], intake := map[], lastSeen := map[])
    case Configuring(ttl, maxSessions) => Configured(s, ttl, maxSessions, now)
  }

  /** Updates do not rename a session, and a factory makes the session that was asked for. */
  ghost predicate WellBehaved(op: Operation) {
    op.Mutating? ==> KeepsId(op.update) && (op.factory.Some? ==> op.factory.value.id == op.key)
  }

  lemma OperationKeepsValid(s: Store, op: Operation, now: real)
    requires Valid(s) && WellBehaved(op)
    ensures Valid(Operate(s, op, now))
  {
    if op.Intaking? {
      RecordedIntakeValid(s, op.key, op.receivedAt, now);
    } else if op.Getting? {
      TouchValid(s, op.key, now);
    } else if op.Mutating? {
      MutateValid(s, op.key, op.update, op.factory, now);
    } else if op.Putting? {
      PutValid(s, op.session);
    } else if op.Pruning? {
      PruneValid(s, now);
    } else if op.Configuring? {
      ConfiguredValid(s, op.ttl, op.maxSessions, now);
    }
  }

  /**
   After every operation both tables are within their bound, the pending tables have the same
   keys and none of a live session, and each session stands under its own id.
   */
  lemma {:induction false} OperationsKeepValid(s: Store, ops: seq<(Operation, real)>)
    requires Valid(s) && forall i :: 0 <= i < |ops| ==> WellBehaved(ops[i].0)
    ensures Valid(OperateAll(s, ops))
  {
    if ops != [] {
      var n := |ops| - 1;
      OperationsKeepValid(s, ops[..n]);
      OperationKeepsValid(OperateAll(s, ops[..n]), ops[n].0, ops[n].1);
    }
  }

  ghost function OperateAll(s: Store, ops: seq<(Operation, real)>): Store {
    if ops == [] then s
    else Operate(OperateAll(s, ops[..|ops| - 1]), ops[|ops| - 1].0, ops[|ops| - 1].1)
  }

  // The store as it runs: dictionaries changed in place

  class MemorySessionStore {
    var ttl: real
    var maxSessions: nat
    var entries: seq<Entry>
    var intake: map<string, Intake>
    var lastSeen: map<string, real>
    var order: nat

    constructor (ttl: real, maxSessions: nat)
      ensures State() == Store(ttl, maxSessions, [], map[], map[], 0) && Valid(State())
    {
      this.ttl, this.maxSessions := ttl, maxSessions;
      entries, intake, lastSeen, order := [], map[], map[], 0;
    }

    ghost function State(): Store
      reads this
    {
      Store(ttl, maxSessions, entries, intake, lastSeen, order)
    }

    /** Forgets intake candidates not seen within the TTL, one by one. */
    method PruneIntakeLocked(now: real)
      requires intake.Keys == lastSeen.Keys
      modifies this`intake, this`lastSeen
      ensures State() == PruneIntake(old(State()), now)
    {
      var todo := lastSeen.Keys;
      while todo != {}
        invariant todo <= old(lastSeen).Keys
        invariant forall k :: k in lastSeen <==> k in old(lastSeen) && (k in todo || now - old(lastSeen)[k] <= ttl)
        invariant forall k :: k in lastSeen ==> lastSeen[k] == old(lastSeen)[k]
        invariant intake.Keys == lastSeen.Keys
        invariant forall k :: k in intake ==> intake[k] == old(intake)[k]
        decreases todo
      {
        var k :| k in todo;
        todo := todo - {k};
        if now - lastSeen[k] > ttl {
          lastSeen := lastSeen - {k};
          intake := intake - {k};
        }
      }
      assert lastSeen == PruneIntake(old(State()), now).lastSeen;
      assert intake == PruneIntake(old(State()), now).intake;
    }

    /** The session, unless it has expired; an expired one is dropped. */
    method GetLocked(key: string, now: real) returns (session: Option<Session>)
      modifies this`entries
      ensures State() == Touch(old(State()), key, now)
      ensures session == Lookup(entries, key)
    {
      session := Lookup(entries, key);
      if session.Some? && Expired(session.value, ttl, now) {
        entries := Without(entries, key);
        session := None;
      }
    }

    /** Removes the least recently updated sessions until the table is within its bound. */
    method EvictOverflow()
      modifies this`entries
      ensures entries == Bounded(old(entries), maxSessions)
    {
      var overflow := |entries| - maxSessions;
      while overflow > 0
        invariant overflow == |entries| - maxSessions || overflow <= 0
        invariant Evict(entries, overflow) == Evict(old(entries), |old(entries)| - maxSessions)
        decreases overflow
      {
        entries := RemoveAt(entries, Oldest(entries));
        overflow := overflow - 1;
      }
    }

    /** Removes the first intakes until the table is within its bound. */
    method BoundIntake()
      requires intake.Keys == lastSeen.Keys && DistinctOrders(intake, order)
      modifies this`intake, this`lastSeen
      ensures State() == BoundIntakes(old(State()))
    {
      while |intake| > maxSessions
        invariant BoundedIntake(intake, maxSessions) == BoundedIntake(old(intake), maxSessions)
        invariant intake.Keys == lastSeen.Keys && DistinctOrders(intake, order)
        invariant SubMap(lastSeen, old(lastSeen))
      {
        FirstIntakeExists(intake);
        var first :| IsFirstIntake(intake, first);
        BoundedStep(intake, maxSessions, order, first);
        intake := intake - {first};
        lastSeen := lastSeen - {first};
      }
      SubMapIs(lastSeen, old(lastSeen), intake);
    }

    /** Appends a candidate and makes room for it. */
    method AddCandidate(id: string, receivedAt: real, now: real)
      requires intake.Keys == lastSeen.Keys && DistinctOrders(intake, order) && id !in intake
      modifies this
      ensures State() == AddIntake(old(State()), id, receivedAt, now)
    {
      AddedIsDistinct(State(), id, receivedAt, now);
      order := order + 1;
      intake := intake[id := Intake(receivedAt, order)];
      lastSeen := lastSeen[id := now];
      assert State() == Added(old(State()), id, receivedAt, now);
      BoundIntake();
    }

    /** Notes when a session candidate was first asked for, before routing looks at the request. */
    method RecordIntake(key: Option<string>, receivedAt: real, now: real)
      requires intake.Keys == lastSeen.Keys && DistinctOrders(intake, order)
      modifies this
      ensures State() == if key.Some? then RecordedIntake(old(State()), key.value, receivedAt, now) else old(State())
    {
      if key.None? {
        return;
      }
      var id := key.value;
      PruneIntakeLocked(now);
      var session := GetLocked(id, now);
      if session.Some? {
        entries := Assign(entries, id, session.value.(firstRequestAt := Some(Earliest(session.value.firstRequestAt, receivedAt))));
        return;
      }
      if id in intake {
        intake := intake[id := Intake(Earliest(Some(intake[id].receivedAt), receivedAt), intake[id].order)];
        lastSeen := lastSeen[id := now];
        return;
      }
      AddCandidate(id, receivedAt, now);
    }

    /** Updates the canonical session, creating it at most once, then bounds the table. */
    method Mutate(key: string, update: Session -> Session, factory: Option<Session>, now: real) returns (result: Option<Session>)
      requires intake.Keys == lastSeen.Keys
      modifies this
      ensures State() == Mutated(old(State()), key, update, factory, now)
      ensures result.None? <==> factory.None? && old(Live(State(), key, now)).None?
    {
      result := GetLocked(key, now);
      if result.None? {
        if factory.None? {
          return;
        }
        var session := factory.value;
        PruneIntakeLocked(now);
        if key in intake {
          session := session.(firstRequestAt := Some(intake[key].receivedAt));
        }
        intake, lastSeen := intake - {key}, lastSeen - {key};
        result := Some(session);
      }
      result := Some(update(result.value));
      entries := Assign(entries, key, result.value);
      if |entries| > maxSessions {
        EvictOverflow();
      }
    }

    /** Stores a session, replacing one with the same id, then bounds the table. */
    method Put(session: Session)
      modifies this
      ensures State() == Stored(old(State()), session)
    {
      var stored := session;
      if session.id in intake {
        stored := stored.(firstRequestAt := Some(intake[session.id].receivedAt));
      }
      intake, lastSeen := intake - {session.id}, lastSeen - {session.id};
      entries := Assign(entries, session.id, stored);
      if |entries| > maxSessions {
        EvictOverflow();
      }
    }

    /** Applies new limits to everything already stored. */
    method Configure(ttl: real, maxSessions: nat, now: real)
      requires intake.Keys == lastSeen.Keys && DistinctOrders(intake, order)
      modifies this
      ensures State() == Configured(old(State()), ttl, maxSessions, now)
    {
      this.ttl, this.maxSessions := ttl, maxSessions;
      PruneIntakeLocked(now);
      BoundIntake();
      entries := Unexpired(entries, ttl, now);
      if |entries| > maxSessions {
        EvictOverflow();
      }
    }
  }
}
