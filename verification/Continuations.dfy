/**
 One session's continuation cache: threads that hydrate it and save to it, and the record
 writer that applies queued inserts and answers the one load.

 `Do` is the protocol as atomic events: each critical section of a thread, each submission to
 the writer's queue, and each item the writer takes. The class `ContinuationCache` performs
 the critical sections in place and is proved to do what `Do` says.
 */
module Continuations {
  import opened Wrappers

  datatype Record = Record(key: string, providerType: string, payload: string)

  datatype Item = Insert(record: Record) | Load

  /** Where the thread that is loading durable history stands. */
  datatype Loader = NotLoading | Submitting | Awaiting | Holding(records: seq<Record>)

  /**
   `records`, `hydrated` and `pending` are the session's adapter state (`pending` exists
   while it is loading); `queue` and `rows` are this session's part of the writer's queue and table.

   The rest is bookkeeping the program does not have: every record of the session ever
   saved, the saves since hydration began, what the load returned, how often one was asked
   for, and whether anything was rejected, failed or pruned.
   */
  datatype World = World(
    records: seq<Record>, hydrated: bool, pending: Option<seq<Record>>,
    queue: seq<Item>, rows: seq<Record>, loader: Loader,
    history: seq<Record>, since: seq<Record>, base: seq<Record>, loads: nat, damaged: bool)

  datatype Event =
    | BeginHydrate
    | SubmitLoad(accepted: bool)
    | FinishHydrate(taken: seq<bool>)
    | Save(record: Record, accepted: bool)
    | WriterApplies
    | WriterFails
    | PruneSession

  /** How much history is kept, and whether the store keeps any. */
  datatype Settings = Settings(limit: nat, enabled: bool)

  function LastN<T>(s: seq<T>, n: nat): seq<T> {
    if |s| <= n then s else s[|s| - n..]
  }

  function Inserts(queue: seq<Item>): seq<Record> {
    if queue == [] then []
    else
      var rest := Inserts(queue[..|queue| - 1]);
      var last := queue[|queue| - 1];
      if last.Insert? then rest + [last.record] else rest
  }

  /** The inserts of the pending saves the queue takes, in order. */
  function Accepted(pending: seq<Record>, accepted: seq<bool>): seq<Item> {
    if pending == [] then []
    else
      var n := |pending| - 1;
      Accepted(pending[..n], accepted) + if Takes(accepted, n) then [Insert(pending[n])] else []
  }

  /** Whether the queue takes submission number n; what is not said is taken. */
  predicate Takes(accepted: seq<bool>, n: nat) {
    n < |accepted| ==> accepted[n]
  }

  predicate TakesAll(n: nat, accepted: seq<bool>) {
    forall i :: 0 <= i < n ==> Takes(accepted, i)
  }

  function Do(s: Settings, w: World, e: Event): World {
    match e
    case BeginHydrate =>
      if w.pending.Some? || w.hydrated then w
      else if !s.enabled then w.(hydrated := true, base := w.records, since := [])
      else w.(pending := Some([]), loader := Submitting, since := [], loads := w.loads + 1)
    case SubmitLoad(accepted) =>
      if !w.loader.Submitting? then w
      else if accepted then w.(queue := w.queue + [Load], loader := Awaiting)
      else w.(loader := Holding([]), damaged := true)
    case FinishHydrate(taken) =>
      if !w.loader.Holding? || w.pending.None? then w
      else w.(
        records := LastN(w.loader.records + w.pending.value, s.limit),
        queue := w.queue + Accepted(w.pending.value, taken),
        hydrated := true, pending := None, loader := NotLoading,
        base := w.loader.records,
        damaged := w.damaged || !TakesAll(|w.pending.value|, taken))
    case Save(record, accepted) =>
      var saved := w.(history := w.history + [record], since := w.since + [record]);
      if w.pending.Some? then saved.(pending := Some(w.pending.value + [record]))
      else saved.(
        records := LastN(w.records + [record], s.limit),
        queue := if s.enabled && accepted then w.queue + [Insert(record)] else w.queue,
        damaged := w.damaged || (s.enabled && !accepted))
    case WriterApplies =>
      if w.queue == [] then w
      else if w.queue[0].Insert? then w.(queue := w.queue[1..], rows := LastN(w.rows + [w.queue[0].record], s.limit))
      else w.(queue := w.queue[1..], loader := Holding(LastN(w.rows, s.limit)))
    case WriterFails =>
      if w.queue == [] then w
      else w.(queue := w.queue[1..], loader := if w.queue[0].Load? then Holding([]) else w.loader, damaged := true)
    case PruneSession => w.(rows := [], damaged := true)
  }

  function Run(s: Settings, w: World, events: seq<Event>): World {
    if events == [] then w else Do(s, Run(s, w, events[..|events| - 1]), events[|events| - 1])
  }

  /** A session created over whatever rows an earlier life of it left in the table. */
  function Start(rows: seq<Record>): World {
    World([], false, None, [], rows, NotLoading, rows, [], [], 0, false)
  }

  // Keeping only the newest

  lemma LastNOfLastN<T>(a: seq<T>, b: seq<T>, n: nat)
    ensures LastN(LastN(a, n) + b, n) == LastN(a + b, n)
  {
    if |a| > n {
      assert (a + b)[|a| - n..] == a[|a| - n..] + b;
      assert LastN(a, n) + b == (a + b)[|a| - n..];
    }
  }

  lemma {:induction false} InsertsOfAppend(q: seq<Item>, item: Item)
    ensures Inserts(q + [item]) == Inserts(q) + if item.Insert? then [item.record] else []
  {
    assert (q + [item])[..|q|] == q;
  }

  lemma {:induction false} InsertsOfTail(q: seq<Item>)
    requires q != []
    ensures Inserts(q) == (if q[0].Insert? then [q[0].record] else []) + Inserts(q[1..])
  {
    var n := |q| - 1;
    if n > 0 {
      InsertsOfTail(q[..n]);
      assert q[1..][..n - 1] == q[..n][1..];
      assert q[1..][n - 1] == q[n];
    }
  }

  lemma {:induction false} InsertsOfAccepted(q: seq<Item>, pending: seq<Record>, accepted: seq<bool>)
    requires TakesAll(|pending|, accepted)
    ensures Inserts(q + Accepted(pending, accepted)) == Inserts(q) + pending
  {
    if pending == [] {
      assert q + Accepted(pending, accepted) == q;
    } else {
      var n := |pending| - 1;
      InsertsOfAccepted(q, pending[..n], accepted);
      var before := q + Accepted(pending[..n], accepted);
      assert Takes(accepted, n);
      assert q + Accepted(pending, accepted) == before + [Insert(pending[n])];
      InsertsOfAppend(before, Insert(pending[n]));
      assert Inserts(q) + pending[..n] + [pending[n]] == Inserts(q) + pending;
    }
  }

  // The invariant

  /** The saves that have not reached the table yet, in order. */
  function Waiting(w: World): seq<Record> {
    Inserts(w.queue) + if w.pending.Some? then w.pending.value else []
  }

  /** The loader's state, the loading flag and the queue agree. */
  ghost predicate LoaderOk(s: Settings, w: World) {
    && (w.pending.Some? <==> !w.loader.NotLoading?)
    && (w.pending.Some? ==> !w.hydrated && w.loads == 1)
    && (!w.pending.Some? && !w.hydrated ==> w.loads == 0)
    && w.loads <= 1
    && (w.hydrated && s.enabled ==> w.loads == 1)
    && (forall i :: 0 <= i < |w.queue| && w.queue[i].Load? ==> w.loader.Awaiting? && i == |w.queue| - 1)
    && (w.loader.Awaiting? ==> w.queue != [] && w.queue[|w.queue| - 1].Load?)
    && (w.loader.Holding? ==> w.queue == [] || w.damaged)
    && (!s.enabled ==> w.queue == [] && w.loader.NotLoading?)
  }

  /** What memory holds, whatever was rejected or failed. */
  ghost predicate MemoryOk(s: Settings, w: World) {
    && |w.records| <= s.limit
    && (w.pending.Some? ==> w.pending.value == w.since)
    && (w.hydrated ==> w.records == LastN(w.base + w.since, s.limit))
  }

  /** What the table, the queue and the pending list add up to, when nothing was rejected, failed or pruned. */
  ghost predicate DurableOk(s: Settings, w: World) {
    !w.damaged && s.enabled ==>
      && |w.rows| <= s.limit
      && LastN(w.rows + Waiting(w), s.limit) == LastN(w.history, s.limit)
      && (w.loader.Holding? ==> w.loader.records == w.rows)
      && (w.hydrated ==> w.records == LastN(w.history, s.limit))
  }

  ghost predicate Invariant(s: Settings, w: World) {
    LoaderOk(s, w) && MemoryOk(s, w) && DurableOk(s, w)
  }

  lemma EventKeepsLoader(s: Settings, w: World, e: Event)
    requires LoaderOk(s, w)
    ensures LoaderOk(s, Do(s, w, e))
  {
    if e.FinishHydrate? && w.loader.Holding? && w.pending.Some? {
      AcceptedAreInserts(w.pending.value, e.taken);
    }
  }

  lemma {:induction false} AcceptedAreInserts(pending: seq<Record>, accepted: seq<bool>)
    ensures forall i :: 0 <= i < |Accepted(pending, accepted)| ==> Accepted(pending, accepted)[i].Insert?
  {
    if pending != [] {
      AcceptedAreInserts(pending[..|pending| - 1], accepted);
    }
  }

  lemma EventKeepsMemory(s: Settings, w: World, e: Event)
    requires LoaderOk(s, w) && MemoryOk(s, w)
    ensures MemoryOk(s, Do(s, w, e))
  {
    match e
    case BeginHydrate =>
      assert w.records + [] == w.records;
    case Save(record, accepted) =>
      if w.hydrated {
        LastNOfLastN(w.base + w.since, [record], s.limit);
        assert w.base + w.since + [record] == w.base + (w.since + [record]);
      }
    case _ =>
  }

  lemma SaveKeepsDurable(s: Settings, w: World, e: Event)
    requires Invariant(s, w) && e.Save?
    ensures DurableOk(s, Do(s, w, e))
  {
    var v := Do(s, w, e);
    if !v.damaged && s.enabled {
      if w.pending.None? {
        InsertsOfAppend(w.queue, Insert(e.record));
      }
      assert Waiting(v) == Waiting(w) + [e.record];
      assert w.rows + Waiting(v) == w.rows + Waiting(w) + [e.record];
      LastNOfLastN(w.rows + Waiting(w), [e.record], s.limit);
      LastNOfLastN(w.history, [e.record], s.limit);
    }
  }

  lemma WriterKeepsDurable(s: Settings, w: World)
    requires Invariant(s, w) && w.queue != []
    ensures DurableOk(s, Do(s, w, WriterApplies))
  {
    var v := Do(s, w, WriterApplies);
    if !w.damaged && s.enabled {
      InsertsOfTail(w.queue);
      if w.queue[0].Insert? {
        var first := [w.queue[0].record];
        assert Waiting(w) == first + Waiting(v);
        assert w.rows + Waiting(w) == w.rows + first + Waiting(v);
        LastNOfLastN(w.rows + first, Waiting(v), s.limit);
      } else {
        assert Waiting(w) == Waiting(v);
        assert w.queue[1..] == [];
      }
    }
  }

  lemma FinishKeepsDurable(s: Settings, w: World, taken: seq<bool>)
    requires Invariant(s, w) && w.loader.Holding? && w.pending.Some?
    ensures DurableOk(s, Do(s, w, FinishHydrate(taken)))
  {
    var v := Do(s, w, FinishHydrate(taken));
    if !v.damaged && s.enabled {
      InsertsOfAccepted(w.queue, w.pending.value, taken);
      assert w.queue == [];
      assert Waiting(w) == w.pending.value == Waiting(v);
    }
  }

  lemma EventKeepsInvariant(s: Settings, w: World, e: Event)
    requires Invariant(s, w)
    ensures Invariant(s, Do(s, w, e))
  {
    EventKeepsLoader(s, w, e);
    EventKeepsMemory(s, w, e);
    match e
    case Save(_, _) => SaveKeepsDurable(s, w, e);
    case WriterApplies => if w.queue != [] { WriterKeepsDurable(s, w); }
    case FinishHydrate(taken) =>
      if w.loader.Holding? && w.pending.Some? {
        FinishKeepsDurable(s, w, taken);
      }
    case SubmitLoad(_) =>
      InsertsOfAppend(w.queue, Load);
    case BeginHydrate =>
      assert Inserts(w.queue) + [] == Inserts(w.queue);
    case _ =>
  }

  lemma {:induction false} RunKeepsInvariant(s: Settings, rows: seq<Record>, events: seq<Event>)
    requires |rows| <= s.limit
    ensures Invariant(s, Run(s, Start(rows), events))
  {
    if events == [] {
      assert rows + Waiting(Start(rows)) == rows;
    } else {
      var n := |events| - 1;
      RunKeepsInvariant(s, rows, events[..n]);
      EventKeepsInvariant(s, Run(s, Start(rows), events[..n]), events[n]);
    }
  }

  // Main results, over every interleaving of hydration, saves and the writer

  /** Durable history is asked for at most once, and exactly once by the time an enabled session is hydrated. */
  lemma HydratesAtMostOnce(s: Settings, rows: seq<Record>, events: seq<Event>)
    requires |rows| <= s.limit
    ensures var w := Run(s, Start(rows), events); w.loads <= 1 && (w.hydrated && s.enabled ==> w.loads == 1)
  {
    RunKeepsInvariant(s, rows, events);
  }

  /**
   Even when loads or writes fail: once hydrated, memory is what was loaded followed by every
   save since hydration began, each once and in order, cut to the newest `limit`.
   */
  lemma NoConcurrentSaveIsLost(s: Settings, rows: seq<Record>, events: seq<Event>)
    requires |rows| <= s.limit
    ensures var w := Run(s, Start(rows), events);
      && (w.hydrated ==> w.records == LastN(w.base + w.since, s.limit))
      && (w.pending.Some? ==> w.pending.value == w.since)
  {
    RunKeepsInvariant(s, rows, events);
  }

  /**
   When nothing was rejected, failed or pruned by session count: a hydrated session's memory is
   the newest `limit` of all it ever saved, and once the queue is drained so are its durable rows.
   */
  lemma MemoryAgreesWithRows(s: Settings, rows: seq<Record>, events: seq<Event>)
    requires |rows| <= s.limit && s.enabled
    ensures var w := Run(s, Start(rows), events); !w.damaged && w.hydrated ==>
      && w.records == LastN(w.history, s.limit)
      && (w.queue == [] ==> w.rows == w.records)
  {
    RunKeepsInvariant(s, rows, events);
    var w := Run(s, Start(rows), events);
    if !w.damaged && w.hydrated && w.queue == [] {
      assert w.rows + Waiting(w) == w.rows;
    }
  }

  // The critical sections as they run, on one session's state and the writer's queue

  class ContinuationCache {
    const settings: Settings
    var records: seq<Record>
    var hydrated: bool
    var loading: bool
    var pending: seq<Record>
    var queue: seq<Item>
    var rows: seq<Record>
    ghost var loader: Loader
    ghost var history: seq<Record>
    ghost var since: seq<Record>
    ghost var base: seq<Record>
    ghost var loads: nat
    ghost var damaged: bool

    constructor (settings: Settings, rows: seq<Record>)
      ensures this.settings == settings && Value() == Start(rows)
    {
      this.settings := settings;
      records, hydrated, loading, pending := [], false, false, [];
      queue, this.rows := [], rows;
      loader, history, since, base, loads, damaged := NotLoading, rows, [], [], 0, false;
    }

    ghost function Value(): World
      reads this
    {
      World(records, hydrated, if loading then Some(pending) else None, queue, rows, loader, history, since, base, loads, damaged)
    }

    /** The first critical section of hydration; `load` tells the thread to go on and load. */
    method BeginHydrate() returns (load: bool)
      modifies this
      ensures Value() == Do(settings, old(Value()), Event.BeginHydrate)
      ensures load <==> old(!loading && !hydrated) && settings.enabled
    {
      load := false;
      if loading || hydrated {
        return;
      }
      since := [];
      if !settings.enabled {
        hydrated := true;
        base := records;
        return;
      }
      loading, pending, load := true, [], true;
      loader, loads := Submitting, loads + 1;
    }

    /** Puts an insert on the writer's queue, which may be full or closed. */
    method Persist(record: Record) returns (accepted: bool)
      modifies this`queue, this`damaged
      ensures queue == old(queue) + if settings.enabled && accepted then [Insert(record)] else []
      ensures damaged == (old(damaged) || (settings.enabled && !accepted))
    {
      accepted := *;
      if settings.enabled {
        if accepted {
          queue := queue + [Insert(record)];
        } else {
          damaged := true;
        }
      }
    }

    /** Hands the saves made during the load to the writer, in order. */
    method PersistAll(saved: seq<Record>) returns (ghost taken: seq<bool>)
      requires settings.enabled
      modifies this`queue, this`damaged
      ensures queue == old(queue) + Accepted(saved, taken)
      ensures damaged == (old(damaged) || !TakesAll(|saved|, taken))
    {
      taken := [];
      var i := 0;
      while i < |saved|
        invariant 0 <= i <= |saved| && |taken| == i
        invariant queue == old(queue) + Accepted(saved[..i], taken)
        invariant damaged == (old(damaged) || !TakesAll(i, taken))
      {
        var accepted := Persist(saved[i]);
        ghost var longer := taken + [accepted];
        AcceptedIgnoresRest(saved[..i], taken, longer);
        TakesOneMore(taken, accepted);
        assert saved[..i + 1][..i] == saved[..i];
        taken := longer;
        i := i + 1;
      }
      assert saved[..|saved|] == saved;
    }

    /** The second critical section: durable history, then the saves made while it was read. */
    method FinishHydrate(durable: seq<Record>) returns (ghost taken: seq<bool>)
      requires loading && loader == Holding(durable) && settings.enabled
      modifies this
      ensures Value() == Do(settings, old(Value()), Event.FinishHydrate(taken))
    {
      records := LastN(durable + pending, settings.limit);
      taken := PersistAll(pending);
      hydrated, loading, pending := true, false, [];
      loader, base := NotLoading, durable;
    }

    /** The load joins the queue behind every insert already accepted. */
    method SubmitLoad() returns (accepted: bool)
      requires loader == Submitting
      modifies this
      ensures Value() == Do(settings, old(Value()), Event.SubmitLoad(accepted))
    {
      accepted := *;
      if accepted {
        queue := queue + [Load];
        loader := Awaiting;
      } else {
        loader, damaged := Holding([]), true;
      }
    }

    /** The writer takes the oldest item: an insert then prunes the session to its newest rows. */
    method ApplyOldest()
      requires queue != []
      modifies this`queue, this`rows, this`loader
      ensures Value() == Do(settings, old(Value()), WriterApplies)
    {
      var item := queue[0];
      queue := queue[1..];
      match item
      case Insert(record) =>
        rows := rows + [record];
        if |rows| > settings.limit {
          rows := rows[|rows| - settings.limit..];
        }
      case Load =>
        loader := Holding(LastN(rows, settings.limit));
    }

    /** One save: behind a running load it waits in the pending list. */
    method Save(record: Record) returns (ghost accepted: bool)
      modifies this
      ensures Value() == Do(settings, old(Value()), Event.Save(record, accepted))
    {
      history, since := history + [record], since + [record];
      accepted := true;
      if loading {
        pending := pending + [record];
      } else {
        records := LastN(records + [record], settings.limit);
        var taken := Persist(record);
        accepted := taken;
      }
    }
  }

  lemma TakesOneMore(taken: seq<bool>, accepted: bool)
    ensures TakesAll(|taken| + 1, taken + [accepted]) <==> TakesAll(|taken|, taken) && accepted
  {
    var longer := taken + [accepted];
    assert forall j :: 0 <= j < |taken| ==> longer[j] == taken[j];
    assert forall j :: 0 <= j < |taken| ==> (Takes(longer, j) <==> Takes(taken, j));
    assert Takes(longer, |taken|) <==> accepted;
  }

  lemma {:induction false} AcceptedIgnoresRest(pending: seq<Record>, a: seq<bool>, b: seq<bool>)
    requires |pending| == |a| < |b| && forall i :: 0 <= i < |a| ==> a[i] == b[i]
    ensures Accepted(pending, a) == Accepted(pending, b)
  {
    AcceptedUpTo(pending, a, b, |pending|);
    assert pending[..|pending|] == pending;
  }

  lemma {:induction false} AcceptedUpTo(pending: seq<Record>, a: seq<bool>, b: seq<bool>, n: nat)
    requires n <= |pending| <= |a| && |a| <= |b| && forall i :: 0 <= i < |a| ==> a[i] == b[i]
    ensures Accepted(pending[..n], a) == Accepted(pending[..n], b)
  {
    if n > 0 {
      AcceptedUpTo(pending, a, b, n - 1);
      assert pending[..n][..n - 1] == pending[..n - 1];
      assert Takes(a, n - 1) <==> Takes(b, n - 1);
    }
  }
}
