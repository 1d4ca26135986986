/**
 Threads and processes sharing one configuration directory: the in-process lock, the file
 lock, the reader gate, and transactions that may be interleaved, aborted or cut off by a
 crash at any step. A run is any sequence of events; an event that is not enabled does nothing.
 */
module ConfigLock {
  import opened Wrappers
  import opened ConfigTransaction

  datatype Thread = Thread(process: nat, index: nat)

  /** What a reader past the gate has read so far. */
  type View = map<Path, Option<Bytes>>

  datatype Activity<R> =
    | Idle
    | Waiting                                     // owns the in-process lock only
    | Inside(depth: nat, view: Option<View>)      // owns both locks; a view once past the gate
    | Transacting(depth: nat, plan: Plan<R>, tx: Transaction<R>, seen: View) // and what its callback has read
    | Leaving                                     // file lock released

  /**
   `committed` is the configuration last completed; `open` remembers what the transaction
   behind the current journal set out to change. Neither is stored by the program.
   */
  datatype World<R> = World(
    disk: Disk, committed: Files, open: seq<Change>,
    local: map<nat, Thread>, flock: Option<Thread>, activity: map<Thread, Activity<R>>)

  datatype Event<R> =
    | TakeLocal(t: Thread)
    | TakeFile(t: Thread)
    | FileLockFails(t: Thread)
    | Nest(t: Thread)
    | Unnest(t: Thread)
    | ReleaseFile(t: Thread)
    | ReleaseLocal(t: Thread)
    | PassGate(t: Thread)
    | Read(t: Thread, path: Path)
    | ReplaceOne(t: Thread, change: Change)
    | Begin(t: Thread, changes: seq<Change>, runtime: R, target: Option<R>, restores: bool)
    | Step(t: Thread, fault: Fault)
    | ReadWhileActivating(t: Thread, path: Path)
    | Finish(t: Thread)
    | Abort(t: Thread)
    | Crash(process: nat)
    | Repair

  function At<R>(w: World<R>, t: Thread): Activity<R> {
    if t in w.activity then w.activity[t] else Idle
  }

  predicate Holds<R>(a: Activity<R>) {
    a.Inside? || a.Transacting?
  }

  function Set<R>(w: World<R>, t: Thread, a: Activity<R>): World<R> {
    w.(activity := w.activity[t := a])
  }

  predicate Enabled<R>(w: World<R>, e: Event<R>) {
    match e
    case TakeLocal(t) => At(w, t).Idle? && t.process !in w.local
    case TakeFile(t) => At(w, t).Waiting? && w.flock.None?
    case FileLockFails(t) => At(w, t).Waiting?
    case Nest(t) => At(w, t).Inside?
    case Unnest(t) => At(w, t).Inside? && At(w, t).depth > 1
    case ReleaseFile(t) => At(w, t).Inside? && At(w, t).depth == 1
    case ReleaseLocal(t) => At(w, t).Leaving?
    case PassGate(t) => At(w, t).Inside? && w.disk.journal.None?
    case Read(t, _) => At(w, t).Inside? && At(w, t).view.Some?
    case ReplaceOne(t, _) => At(w, t).Inside? && At(w, t).view.Some?
    case Begin(t, changes, _, _, _) =>
      At(w, t).Inside? && forall i, j :: 0 <= i < j < |changes| ==> changes[i].path.name != changes[j].path.name
    case Step(t, _) => At(w, t).Transacting?
    case ReadWhileActivating(t, _) => At(w, t).Transacting? && At(w, t).tx.phase.Activating?
    case Finish(t) => At(w, t).Transacting? && At(w, t).tx.phase.Done?
    case Abort(t) => At(w, t).Transacting?
    case Crash(_) => true
    case Repair => w.flock.None? && w.disk.journal.Some?
  }

  function Do<R>(w: World<R>, e: Event<R>): World<R> {
    if !Enabled(w, e) then w else
    match e
    case TakeLocal(t) => Set(w, t, Waiting).(local := w.local[t.process := t])
    case TakeFile(t) => Set(w, t, Inside(1, None)).(flock := Some(t))
    case FileLockFails(t) => Set(w, t, Idle).(local := w.local - {t.process})
    case Nest(t) => Set(w, t, Inside(At(w, t).depth + 1, At(w, t).view))
    case Unnest(t) => Set(w, t, Inside(At(w, t).depth - 1, At(w, t).view))
    case ReleaseFile(t) => Set(w, t, Leaving).(flock := None)
    case ReleaseLocal(t) => Set(w, t, Idle).(local := w.local - {t.process})
    case PassGate(t) =>
      var a := At(w, t);
      Set(w, t, if a.view.Some? then a else a.(view := Some(map[])))
    case Read(t, path) =>
      var a := At(w, t);
      Set(w, t, a.(view := Some(a.view.value[path := Content(w.disk.files, path)])))
    case ReplaceOne(t, change) =>
      var files := Apply(w.disk.files, change);
      Set(w, t, At(w, t).(view := Some(map[]))).(disk := w.disk.(files := files), committed := files)
    case Begin(t, changes, runtime, target, restores) =>
      var plan := Plan(w.disk, changes, runtime, target, restores);
      Set(w, t, Transacting(At(w, t).depth, plan, Initial(plan), map[]))
      .(open := if w.disk.journal.None? then changes else w.open)
    case Step(t, fault) =>
      var a := At(w, t);
      var tx := Next(a.plan, a.tx, fault);
      Set(w, t, a.(tx := tx, seen := map[])).(
        disk := tx.disk,
        committed := if tx.phase == Done(Applied) then tx.disk.files else w.committed)
    case ReadWhileActivating(t, path) =>
      var a := At(w, t);
      Set(w, t, a.(seen := a.seen[path := Content(w.disk.files, path)]))
    case Finish(t) => Set(w, t, Inside(At(w, t).depth, None))
    case Abort(t) => Set(w, t, Leaving).(flock := None)
    case Crash(process) =>
      w.(
        local := w.local - {process},
        flock := if w.flock.Some? && w.flock.value.process == process then None else w.flock,
        activity := map t | t in w.activity && t.process != process :: w.activity[t])
    case Repair => w.(disk := Disk(RestoreFrom(w.disk.files, w.disk.journal.value, w.open), None))
  }

  function Run<R>(w: World<R>, events: seq<Event<R>>): World<R> {
    if events == [] then w else Do(Run(w, events[..|events| - 1]), events[|events| - 1])
  }

  function Start<R>(files: Files): World<R> {
    World(Disk(files, None), files, [], map[], None, map[])
  }

  // The invariant

  ghost predicate OneOwner<R>(w: World<R>) {
    && (forall t :: Holds(At(w, t)) <==> w.flock == Some(t))
    && (forall t :: !At(w, t).Idle? ==> t.process in w.local && w.local[t.process] == t)
  }

  /** With no journal the files are the committed ones; a journal is enough to get them back. */
  ghost predicate Recoverable<R>(w: World<R>) {
    Recovers(w.disk, w.committed, w.open)
  }

  ghost predicate Recovers(disk: Disk, committed: Files, open: seq<Change>) {
    match disk.journal
    case None => disk.files == committed
    case Some(journal) => RestoreFrom(disk.files, journal, open) == committed
  }

  ghost predicate ReaderOk<R>(w: World<R>, a: Activity<R>) {
    a.Inside? && a.view.Some? ==>
      && w.disk.journal.None?
      && forall path :: path in a.view.value ==> a.view.value[path] == Content(w.committed, path)
  }

  ghost predicate WriterOk<R>(w: World<R>, a: Activity<R>) {
    a.Transacting? ==>
      && DistinctNames(a.plan.changes)
      && Invariant(a.plan, a.tx)
      && a.tx.disk == w.disk
      && (!a.tx.phase.Done? && a.plan.disk.journal.None? ==> a.plan.disk.files == w.committed && w.open == a.plan.changes)
  }

  /** What an activation callback has read is what the files hold. */
  ghost predicate SeenOk<R>(w: World<R>, a: Activity<R>) {
    a.Transacting? ==>
      && (a.seen != map[] ==> a.tx.phase.Activating?)
      && forall path :: path in a.seen ==> a.seen[path] == Content(w.disk.files, path)
  }

  ghost predicate Safe<R>(w: World<R>) {
    && OneOwner(w)
    && Recoverable(w)
    && (forall t :: ReaderOk(w, At(w, t)))
    && (forall t :: WriterOk(w, At(w, t)))
    && (forall t :: SeenOk(w, At(w, t)))
  }

  lemma StepKeepsWriter<R>(w: World<R>, t: Thread, fault: Fault)
    requires WriterOk(w, At(w, t)) && At(w, t).Transacting?
    ensures WriterOk(Do(w, Step(t, fault)), At(Do(w, Step(t, fault)), t))
  {
    var a := At(w, t);
    StepKeepsInvariant(a.plan, a.tx, fault);
  }

  /** A transaction step keeps the committed configuration recoverable and moves it only by committing. */
  lemma StepRecovers<R>(plan: Plan<R>, tx: Transaction<R>, fault: Fault, committed: Files, open: seq<Change>)
    requires DistinctNames(plan.changes) && Invariant(plan, tx) && Recovers(tx.disk, committed, open)
    requires !tx.phase.Done? && plan.disk.journal.None? ==> plan.disk.files == committed && open == plan.changes
    ensures var after := Next(plan, tx, fault);
      Recovers(after.disk, if after.phase == Done(Applied) then after.disk.files else committed, open)
  {
    StepKeepsInvariant(plan, tx, fault);
    if plan.disk.journal.None? && !tx.phase.Done? {
      DistinctNamesAreFaithful(plan.disk.files, plan.changes);
      RepairRestoresOld(plan.disk.files, Next(plan, tx, fault).disk.files, plan.changes);
    }
  }

  lemma StepKeepsRecoverable<R>(w: World<R>, t: Thread, fault: Fault)
    requires Recoverable(w) && WriterOk(w, At(w, t)) && At(w, t).Transacting?
    ensures Recoverable(Do(w, Step(t, fault)))
  {
    var a := At(w, t);
    StepRecovers(a.plan, a.tx, fault, w.committed, w.open);
  }

  predicate ByThread<R>(e: Event<R>) {
    !e.Crash? && !e.Repair?
  }

  lemma OthersUnchanged<R>(w: World<R>, e: Event<R>, u: Thread)
    ensures ByThread(e) && u != e.t ==> At(Do(w, e), u) == At(w, u)
    ensures e.Repair? ==> At(Do(w, e), u) == At(w, u)
    ensures e.Crash? ==> At(Do(w, e), u) == if u.process == e.process then Idle else At(w, u)
  {
  }

  lemma OwnersKept<R>(w: World<R>, e: Event<R>)
    requires OneOwner(w)
    ensures OneOwner(Do(w, e))
  {
    var v := Do(w, e);
    forall u ensures Holds(At(v, u)) <==> v.flock == Some(u) {
      OthersUnchanged(w, e, u);
    }
    forall u | !At(v, u).Idle? ensures u.process in v.local && v.local[u.process] == u {
      OthersUnchanged(w, e, u);
    }
  }

  /** While one thread holds the file lock, the others have nothing to say about the disk. */
  lemma NobodyElseHolds<R>(w: World<R>, t: Thread, u: Thread)
    requires OneOwner(w) && Holds(At(w, t)) && u != t
    ensures !Holds(At(w, u))
  {
  }

  lemma ReadersKept<R>(w: World<R>, e: Event<R>, u: Thread)
    requires Safe(w)
    ensures ReaderOk(Do(w, e), At(Do(w, e), u))
  {
    OthersUnchanged(w, e, u);
    assert ReaderOk(w, At(w, u));
    if Enabled(w, e) && ByThread(e) && u != e.t && Holds(At(w, e.t)) {
      NobodyElseHolds(w, e.t, u);
    }
  }

  lemma WritersKept<R>(w: World<R>, e: Event<R>, u: Thread)
    requires Safe(w)
    ensures WriterOk(Do(w, e), At(Do(w, e), u))
  {
    OthersUnchanged(w, e, u);
    assert WriterOk(w, At(w, u));
    if Enabled(w, e) {
      if ByThread(e) && u != e.t && Holds(At(w, e.t)) {
        NobodyElseHolds(w, e.t, u);
      } else if e.Step? && u == e.t {
        StepKeepsWriter(w, u, e.fault);
      } else if e.Begin? && u == e.t {
        BeginIsOk(w, e);
      }
    }
  }

  lemma SeenKept<R>(w: World<R>, e: Event<R>, u: Thread)
    requires OneOwner(w) && SeenOk(w, At(w, u))
    ensures SeenOk(Do(w, e), At(Do(w, e), u))
  {
    OthersUnchanged(w, e, u);
    if Enabled(w, e) && ByThread(e) && u != e.t && Holds(At(w, e.t)) {
      NobodyElseHolds(w, e.t, u);
    }
  }

  lemma EventKeepsSafe<R>(w: World<R>, e: Event<R>)
    requires Safe(w)
    ensures Safe(Do(w, e))
  {
    OwnersKept(w, e);
    if Enabled(w, e) && e.Step? {
      assert WriterOk(w, At(w, e.t));
      StepKeepsRecoverable(w, e.t, e.fault);
    } else if Enabled(w, e) && e.ReplaceOne? {
      assert ReaderOk(w, At(w, e.t));
    }
    forall u ensures ReaderOk(Do(w, e), At(Do(w, e), u)) {
      ReadersKept(w, e, u);
    }
    forall u ensures WriterOk(Do(w, e), At(Do(w, e), u)) {
      WritersKept(w, e, u);
    }
    forall u ensures SeenOk(Do(w, e), At(Do(w, e), u)) {
      SeenKept(w, e, u);
    }
  }

  lemma BeginIsOk<R>(w: World<R>, e: Event<R>)
    requires Safe(w) && e.Begin? && Enabled(w, e)
    ensures Recoverable(Do(w, e)) && WriterOk(Do(w, e), At(Do(w, e), e.t))
  {
    assert DistinctNames(e.changes);
    DistinctNamesAreFaithful(w.disk.files, e.changes);
  }

  lemma {:induction false} RunIsSafe<R>(files: Files, events: seq<Event<R>>)
    ensures Safe(Run(Start(files), events))
  {
    if events != [] {
      var n := |events| - 1;
      RunIsSafe(files, events[..n]);
      EventKeepsSafe(Run(Start(files), events[..n]), events[n]);
    }
  }

  // Main results, over every run of any threads and processes

  /** A reader admitted by the gate sees one committed configuration, however long it reads. */
  lemma ReaderSeesOneConfiguration<R>(files: Files, events: seq<Event<R>>, t: Thread, path: Path)
    requires var a := At(Run(Start(files), events), t); a.Inside? && a.view.Some? && path in a.view.value
    ensures var w := Run(Start(files), events); At(w, t).view.value[path] == Content(w.committed, path)
  {
    RunIsSafe(files, events);
    assert ReaderOk(Run(Start(files), events), At(Run(Start(files), events), t));
  }

  /** Inside the lock the gate admits a thread exactly when there is no journal, and an admitted read returns the committed content. */
  lemma AdmittedReadsAreAnswered<R>(files: Files, events: seq<Event<R>>, t: Thread, path: Path)
    requires At(Run(Start(files), events), t).Inside?
    ensures var w := Run(Start(files), events);
      && (At(Do(w, PassGate(t)), t).view.Some? <==> w.disk.journal.None?)
      && (w.disk.journal.None? ==>
            var v := Do(Do(w, PassGate(t)), Read(t, path));
            && At(v, t).Inside? && At(v, t).view.Some? && path in At(v, t).view.value
            && At(v, t).view.value[path] == Content(w.committed, path))
  {
    RunIsSafe(files, events);
    assert ReaderOk(Run(Start(files), events), At(Run(Start(files), events), t));
  }

  /** Without a journal the directory holds the committed configuration; with one, repairing it does. */
  lemma DirectoryIsAlwaysRecoverable<R>(files: Files, events: seq<Event<R>>)
    ensures var w := Run(Start(files), events);
      && (w.disk.journal.None? ==> w.disk.files == w.committed)
      && (w.disk.journal.Some? ==> RestoreFrom(w.disk.files, w.disk.journal.value, w.open) == w.committed)
  {
    RunIsSafe(files, events);
  }

  /** Two threads, in one process or two, are never inside together. */
  lemma LockIsExclusive<R>(files: Files, events: seq<Event<R>>, t: Thread, u: Thread)
    requires var w := Run(Start(files), events); Holds(At(w, t)) && Holds(At(w, u))
    ensures t == u
  {
    RunIsSafe(files, events);
  }

  /** Nothing is left of a section: locks, files and what every thread is doing are as they were. */
  ghost predicate NothingLeft<R>(w: World<R>, v: World<R>) {
    && v.local == w.local && v.flock == w.flock && v.disk == w.disk && v.committed == w.committed && v.open == w.open
    && forall u :: At(v, u) == At(w, u)
  }

  lemma TakenSection<R>(w: World<R>, t: Thread)
    requires At(w, t).Idle? && t.process !in w.local && w.flock.None?
    ensures var waiting := Do(w, TakeLocal(t)); var taken := Do(waiting, TakeFile(t));
      && waiting == Set(w, t, Waiting).(local := w.local[t.process := t])
      && taken == Set(waiting, t, Inside(1, None)).(flock := Some(t))
  {
  }

  /** A thread that finds both locks free gets them, and gives them back: after a section, after a file lock it could not take, and when its process dies. */
  lemma SectionIsUndone<R>(w: World<R>, t: Thread)
    requires At(w, t).Idle? && t.process !in w.local && w.flock.None?
    ensures var taken := Do(Do(w, TakeLocal(t)), TakeFile(t));
      && Holds(At(taken, t)) && taken.flock == Some(t)
      && NothingLeft(w, Do(Do(taken, ReleaseFile(t)), ReleaseLocal(t)))
      && Do(taken, Crash(t.process)).flock.None? && Do(taken, Crash(t.process)).local == w.local
    ensures NothingLeft(w, Do(Do(w, TakeLocal(t)), FileLockFails(t)))
  {
    TakenSection(w, t);
    assert w.local[t.process := t] - {t.process} == w.local;
  }

  /** The lock is reentrant: a section entered inside it leaves everything as entering found it, the lock still held. */
  lemma NestIsUndone<R>(w: World<R>, t: Thread)
    requires At(w, t).Inside? && At(w, t).depth >= 1
    ensures Do(Do(w, Nest(t)), Unnest(t)) == w
    ensures At(Do(w, Nest(t)), t).Inside? && Do(Do(w, Nest(t)), ReleaseFile(t)) == Do(w, Nest(t))
  {
    var v := Do(w, Nest(t));
    assert w.activity[t := At(w, t)] == w.activity;
    assert v.activity[t := At(w, t)] == w.activity;
  }

  lemma StepCommitsWhole<R>(w: World<R>, t: Thread, fault: Fault)
    requires Recoverable(w) && WriterOk(w, At(w, t)) && At(w, t).Transacting?
    ensures var v := Do(w, Step(t, fault));
      v.committed == w.committed || (w.open == At(w, t).plan.changes && v.committed == ApplyAll(w.committed, w.open))
  {
    var a := At(w, t);
    StepKeepsInvariant(a.plan, a.tx, fault);
  }

  /** The committed configuration moves only by one whole set of changes at a time. */
  lemma CommitsAreWhole<R>(files: Files, events: seq<Event<R>>, e: Event<R>)
    ensures var w := Run(Start(files), events); var v := Do(w, e);
      v.committed == w.committed
      || (e.ReplaceOne? && v.committed == Apply(w.committed, e.change))
      || (e.Step? && w.open == At(w, e.t).plan.changes && v.committed == ApplyAll(w.committed, w.open))
  {
    RunIsSafe(files, events);
    var w := Run(Start(files), events);
    if Enabled(w, e) && e.ReplaceOne? {
      assert ReaderOk(w, At(w, e.t));
    }
    if Enabled(w, e) && e.Step? {
      assert WriterOk(w, At(w, e.t));
      StepCommitsWhole(w, e.t, e.fault);
    }
  }

  /** Whatever the activation callback reads is the new configuration, although the journal of the old one is still there. */
  lemma ActivationSeesOnlyNew<R>(files: Files, events: seq<Event<R>>, t: Thread, path: Path)
    requires var a := At(Run(Start(files), events), t); a.Transacting? && path in a.seen
    ensures var w := Run(Start(files), events); var a := At(w, t);
      && a.tx.phase.Activating? && w.disk.journal.Some?
      && a.seen[path] == Content(ApplyAll(w.committed, a.plan.changes), path)
  {
    RunIsSafe(files, events);
    var w := Run(Start(files), events);
    assert WriterOk(w, At(w, t)) && SeenOk(w, At(w, t));
  }

  /** And every one of its reads is answered. */
  lemma ActivationReadsAreAnswered<R>(w: World<R>, t: Thread, path: Path)
    requires At(w, t).Transacting? && At(w, t).tx.phase.Activating?
    ensures var a := At(Do(w, ReadWhileActivating(t, path)), t);
      a.Transacting? && a.tx == At(w, t).tx && path in a.seen && a.seen[path] == Content(w.disk.files, path)
  {
  }
}
