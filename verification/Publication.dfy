/**
 When a configuration version is published: reloads inside a deferring scope are published
 once, by the outermost scope, and only when that scope ends normally.

 Programs are trees of actions. `Exec` runs them on the engine's fields; `Effects` says what a
 program amounts to without an engine, and the two are proved to agree. A catalog stands for
 its own version, as its content hash is injective.
 */
module Publication {
  import opened Wrappers
  import opened ConfigTransaction

  datatype Engine<C> = Engine(catalog: C, hash: C, published: seq<C>, pending: seq<bool>)

  datatype Action<C> =
    | Reload(catalog: C)
    | Raise
    | Scope(body: seq<Action<C>>)
    | Catch(body: seq<Action<C>>)

  /** Notes a version with the innermost open scope, or submits it. */
  function Register<C>(e: Engine<C>, catalog: C): Engine<C> {
    if e.pending == [] then e.(published := e.published + [catalog])
    else e.(pending := e.pending[|e.pending| - 1 := true])
  }

  function Reloaded<C>(e: Engine<C>, catalog: C): Engine<C> {
    Register(e, catalog).(catalog := catalog, hash := catalog)
  }

  function Opened<C>(e: Engine<C>): Engine<C> {
    e.(pending := e.pending + [false])
  }

  /** Leaving a scope: what it noted is passed on, or dropped when an exception leaves with it. */
  function Left<C>(e: Engine<C>, ok: bool): Engine<C>
    requires e.pending != []
  {
    var n := |e.pending| - 1;
    var outer := e.(pending := e.pending[..n]);
    if ok && e.pending[n] then Register(outer, e.catalog).(hash := e.catalog) else outer
  }

  /** The engine afterwards, and whether the program returned normally. */
  function Exec<C>(e: Engine<C>, body: seq<Action<C>>): (r: (Engine<C>, bool))
    ensures |r.0.pending| == |e.pending|
    decreases body
  {
    if body == [] then (e, true)
    else
      var first := match body[0]
        case Reload(catalog) => (Reloaded(e, catalog), true)
        case Raise => (e, false)
        case Scope(inner) =>
          var r := Exec(Opened(e), inner);
          (Left(r.0, r.1), r.1)
        case Catch(inner) => (Exec(e, inner).0, true);
      if first.1 then Exec(first.0, body[1..]) else first
  }

  // What a program amounts to

  /** `kept` says that some reload was outside every scope an exception left. */
  datatype Net<C> = Net(normal: bool, kept: bool, last: Option<C>)

  function Followed<C>(a: Net<C>, b: Net<C>): Net<C> {
    Net(b.normal, a.kept || b.kept, if b.last.Some? then b.last else a.last)
  }

  function Effects<C>(body: seq<Action<C>>): Net<C>
    decreases body
  {
    if body == [] then Net(true, false, None)
    else
      var first := match body[0]
        case Reload(catalog) => Net(true, true, Some(catalog))
        case Raise => Net(false, false, None)
        case Scope(inner) => var i := Effects(inner); i.(kept := i.normal && i.kept)
        case Catch(inner) => Effects(inner).(normal := true);
      if first.normal then Followed(first, Effects(body[1..])) else first
  }

  function Active<C>(catalog: C, last: Option<C>): C {
    if last.Some? then last.value else catalog
  }

  /** Inside a scope nothing is published, and only the innermost note can change. */
  ghost predicate RanInScope<C>(before: Engine<C>, after: Engine<C>, x: Net<C>) {
    && before.pending != [] && |after.pending| == |before.pending|
    && after.catalog == Active(before.catalog, x.last)
    && after.published == before.published
    && after.pending == before.pending[|before.pending| - 1 := before.pending[|before.pending| - 1] || x.kept]
    && (before.hash == before.catalog ==> after.hash == after.catalog)
  }

  lemma ScopesNest<C>(e: Engine<C>, after: Engine<C>, x: Net<C>)
    requires e.pending != [] && RanInScope(Opened(e), after, x)
    ensures RanInScope(e, Left(after, x.normal), x.(kept := x.normal && x.kept))
  {
    var n := |e.pending|;
    assert after.pending == e.pending + [x.kept];
    assert after.pending[..n] == e.pending;
    var m := n - 1;
    assert e.pending[m := e.pending[m]] == e.pending;
    assert e.pending[m := e.pending[m] || false] == e.pending;
  }

  lemma RunsChain<C>(a: Engine<C>, b: Engine<C>, c: Engine<C>, x: Net<C>, y: Net<C>)
    requires RanInScope(a, b, x) && RanInScope(b, c, y)
    ensures RanInScope(a, c, Followed(x, y))
  {
  }

  /** Running a program inside a scope has exactly its effects. */
  lemma {:induction false} ExecHasEffects<C>(e: Engine<C>, body: seq<Action<C>>)
    requires e.pending != []
    ensures Exec(e, body).1 == Effects(body).normal
    ensures RanInScope(e, Exec(e, body).0, Effects(body))
    decreases body
  {
    if body == [] {
      assert e.pending[|e.pending| - 1 := e.pending[|e.pending| - 1]] == e.pending;
    } else {
      var middle, first := FirstHasEffects(e, body);
      if first.normal {
        ExecHasEffects(middle, body[1..]);
        RunsChain(e, middle, Exec(middle, body[1..]).0, first, Effects(body[1..]));
      }
    }
  }

  lemma {:induction false} FirstHasEffects<C>(e: Engine<C>, body: seq<Action<C>>) returns (middle: Engine<C>, first: Net<C>)
    requires e.pending != [] && body != []
    ensures RanInScope(e, middle, first)
    ensures Effects(body) == if first.normal then Followed(first, Effects(body[1..])) else first
    ensures Exec(e, body) == if first.normal then Exec(middle, body[1..]) else (middle, false)
    decreases body, 0
  {
    var m := |e.pending| - 1;
    assert e.pending[m := e.pending[m]] == e.pending;
    match body[0]
    case Reload(catalog) =>
      middle, first := Reloaded(e, catalog), Net(true, true, Some(catalog));
    case Raise =>
      middle, first := e, Net(false, false, None);
    case Scope(inner) =>
      ExecHasEffects(Opened(e), inner);
      var r := Exec(Opened(e), inner);
      var i := Effects(inner);
      ScopesNest(e, r.0, i);
      middle, first := Left(r.0, r.1), i.(kept := i.normal && i.kept);
    case Catch(inner) =>
      ExecHasEffects(e, inner);
      middle, first := Exec(e, inner).0, Effects(inner).(normal := true);
  }

  // What an outermost scope publishes

  function Outermost<C>(e: Engine<C>, body: seq<Action<C>>): (Engine<C>, bool) {
    Exec(e, [Scope(body)])
  }

  /**
   An outermost scope that ends normally publishes exactly one version, that of the catalog then
   active, when some reload in it was kept, and none otherwise; one left by an exception
   publishes none.
   */
  lemma OnePublicationPerScope<C>(e: Engine<C>, body: seq<Action<C>>)
    requires e.pending == [] && e.hash == e.catalog
    ensures var r := Outermost(e, body); var x := Effects(body);
      && r.1 == x.normal
      && r.0.pending == [] && r.0.hash == r.0.catalog
      && r.0.catalog == Active(e.catalog, x.last)
      && r.0.published == e.published + (if x.normal && x.kept then [r.0.catalog] else [])
  {
    var inner := Exec(Opened(e), body);
    ExecHasEffects(Opened(e), body);
    var left := Left(inner.0, inner.1);
    assert inner.0.pending == [Effects(body).kept];
    assert left.pending == [];
    assert [Scope(body)][1..] == [];
    assert Exec(left, [Scope(body)][1..]) == (left, true);
  }

  /** Whether the active catalog's version is the last one published. */
  ghost predicate UpToDate<C>(e: Engine<C>) {
    e.published != [] && e.published[|e.published| - 1] == e.catalog
  }

  /**
   After an outermost scope the published version is the active one unless a reload changed the
   catalog and every reload was dropped with an exception that left its scope.
   */
  lemma UpToDateIff<C>(e: Engine<C>, body: seq<Action<C>>)
    requires e.pending == [] && e.hash == e.catalog && UpToDate(e)
    ensures var x := Effects(body);
      UpToDate(Outermost(e, body).0) <==> (x.normal && x.kept) || Active(e.catalog, x.last) == e.catalog
  {
    OnePublicationPerScope(e, body);
  }

  /** An inner scope is left by an exception that the outer one survives: the new catalog serves unpublished. */
  lemma CaughtReloadIsNotPublished<C>(e: Engine<C>, catalog: C)
    requires e.pending == [] && e.hash == e.catalog && UpToDate(e) && catalog != e.catalog
    ensures var body := [Catch([Scope([Reload(catalog), Raise])])];
      && Outermost(e, body).1 && Outermost(e, body).0.catalog == catalog && !UpToDate(Outermost(e, body).0)
  {
    var reload: seq<Action<C>> := [Reload(catalog), Raise];
    assert reload[1..] == [Raise] && reload[0] == Reload(catalog);
    var raise: seq<Action<C>> := [Raise];
    assert Effects(raise) == Net(false, false, None);
    assert Effects(reload) == Net(false, true, Some(catalog));
    assert [Scope(reload)][1..] == [];
    assert Effects([Scope(reload)]) == Net(false, false, Some(catalog));
    var body := [Catch([Scope(reload)])];
    assert body[1..] == [] && body[0] == Catch([Scope(reload)]);
    assert Effects(body) == Net(true, false, Some(catalog));
    OnePublicationPerScope(e, body);
  }

  /** Programs that swallow no exception. */
  predicate NeverCatches<C>(body: seq<Action<C>>)
    decreases body
  {
    body == []
    || (&& !body[0].Catch?
        && (body[0].Scope? ==> NeverCatches(body[0].body))
        && NeverCatches(body[1..]))
  }

  /** Without a swallowed exception, a scope that ends normally after a reload always publishes. */
  lemma {:induction false} ReturningKeepsReloads<C>(body: seq<Action<C>>)
    requires NeverCatches(body) && Effects(body).normal
    ensures Effects(body).kept <==> Effects(body).last.Some?
    decreases body
  {
    if body != [] {
      if body[0].Scope? {
        ReturningKeepsReloads(body[0].body);
      }
      ReturningKeepsReloads(body[1..]);
    }
  }

  lemma UncaughtScopesStayUpToDate<C>(e: Engine<C>, body: seq<Action<C>>)
    requires e.pending == [] && e.hash == e.catalog && UpToDate(e) && NeverCatches(body)
    requires Effects(body).normal
    ensures UpToDate(Outermost(e, body).0)
    ensures |Outermost(e, body).0.published| == |e.published| + (if Effects(body).last.Some? then 1 else 0)
  {
    ReturningKeepsReloads(body);
    OnePublicationPerScope(e, body);
  }

  // A configuration command: one file transaction inside one scope

  /** What the callback of one step installs, if the step runs one. */
  function InstalledBy<C>(plan: Plan<C>, before: Transaction<C>, fault: Fault): seq<C> {
    if before.phase.Activating? && plan.target.Some? && !fault.FailsBefore? then [plan.target.value]
    else if before.phase.RestoringRuntime? && plan.restores && !fault.FailsBefore? then [plan.runtime]
    else []
  }

  /** The catalogs a transaction's callbacks install, in order. */
  function Installs<C>(plan: Plan<C>, faults: seq<Fault>): seq<C> {
    if faults == [] then []
    else
      var n := |faults| - 1;
      Installs(plan, faults[..n]) + InstalledBy(plan, Execute(plan, faults[..n]), faults[n])
  }

  function Reloads<C>(catalogs: seq<C>): seq<Action<C>> {
    seq(|catalogs|, i requires 0 <= i < |catalogs| => Reload(catalogs[i]))
  }

  /**
   What the command does to the engine: the reloads of its transaction, then an exception if the
   transaction failed, or if the files cannot be read again for the reply once it was applied.
   */
  function CommandBody<C>(plan: Plan<C>, faults: seq<Fault>, replies: bool): seq<Action<C>> {
    Reloads(Installs(plan, faults)) + (if Execute(plan, faults).phase == Done(Applied) && replies then [] else [Raise])
  }

  function LastOf<C>(catalogs: seq<C>): Option<C> {
    if catalogs == [] then None else Some(catalogs[|catalogs| - 1])
  }

  lemma StepInstalls<C>(plan: Plan<C>, before: Transaction<C>, fault: Fault)
    ensures Next(plan, before, fault).runtime == Active(before.runtime, LastOf(InstalledBy(plan, before, fault)))
  {
  }

  lemma LastOfConcat<C>(catalog: C, a: seq<C>, b: seq<C>)
    ensures Active(Active(catalog, LastOf(a)), LastOf(b)) == Active(catalog, LastOf(a + b))
  {
  }

  lemma {:induction false} RuntimeIsLastInstalled<C>(plan: Plan<C>, faults: seq<Fault>)
    ensures Execute(plan, faults).runtime == Active(plan.runtime, LastOf(Installs(plan, faults)))
  {
    if faults != [] {
      var n := |faults| - 1;
      var before := Execute(plan, faults[..n]);
      RuntimeIsLastInstalled(plan, faults[..n]);
      StepInstalls(plan, before, faults[n]);
      LastOfConcat(plan.runtime, Installs(plan, faults[..n]), InstalledBy(plan, before, faults[n]));
    }
  }

  /** An applied transaction with an activation ran its callback. */
  lemma {:induction false} AppliedWasActivated<C>(plan: Plan<C>, faults: seq<Fault>)
    requires plan.target.Some?
    ensures var phase := Execute(plan, faults).phase;
      phase.Committing? || phase == Done(Applied) ==> Installs(plan, faults) != []
  {
    if faults != [] {
      AppliedWasActivated(plan, faults[..|faults| - 1]);
    }
  }

  lemma {:induction false} NothingInstalledWithoutTarget<C>(plan: Plan<C>, faults: seq<Fault>)
    requires plan.target.None?
    ensures var phase := Execute(plan, faults).phase;
      !phase.Restoring? && !phase.RestoringRuntime? && !phase.Discarding? && (phase.Done? ==> phase.outcome == Applied)
      ==> Installs(plan, faults) == []
  {
    if faults != [] {
      NothingInstalledWithoutTarget(plan, faults[..|faults| - 1]);
    }
  }

  lemma {:induction false} EffectsOfReloads<C>(catalogs: seq<C>, tail: seq<Action<C>>)
    requires tail == [] || tail == [Raise]
    ensures Effects(Reloads(catalogs) + tail) == Net(tail == [], catalogs != [], LastOf(catalogs))
  {
    var body := Reloads(catalogs) + tail;
    if catalogs == [] {
      assert body == tail;
    } else {
      assert body[1..] == Reloads(catalogs[1..]) + tail;
      assert body[0] == Reload(catalogs[0]);
      EffectsOfReloads(catalogs[1..], tail);
    }
  }

  /**
   A command that returns normally leaves disk and catalog both new and one version published
   for it. One that fails publishes nothing and, unless it was applied or recovery itself failed,
   leaves both old.
   */
  lemma CommandIsAllOrNothing<C>(e: Engine<C>, plan: Plan<C>, faults: seq<Fault>, replies: bool)
    requires DistinctPaths(plan.changes) && plan.disk.journal.None? && plan.restores
    requires e.pending == [] && e.hash == e.catalog && e.catalog == plan.runtime
    requires Execute(plan, faults).phase.Done?
    ensures var tx := Execute(plan, faults); var r := Outermost(e, CommandBody(plan, faults, replies));
      && r.1 == (tx.phase.outcome == Applied && replies)
      && r.0.catalog == tx.runtime && r.0.pending == [] && r.0.hash == r.0.catalog
      && (r.1 ==> tx.disk == Disk(NewFiles(plan), None)
                  && r.0.catalog == Active(e.catalog, plan.target)
                  && r.0.published == e.published + (if plan.target.Some? then [plan.target.value] else []))
      && (!r.1 ==> r.0.published == e.published)
      && (tx.phase.outcome != Applied && tx.phase.outcome != RecoveryFailed ==>
            tx.disk.files == plan.disk.files && r.0.catalog == e.catalog)
      && (tx.phase.outcome == RecoveryFailed ==> tx.disk.journal == Some(OldJournal(plan)))
  {
    var tx := Execute(plan, faults);
    ExecutionKeepsInvariant(plan, faults);
    RuntimeIsLastInstalled(plan, faults);
    EffectsOfReloads(Installs(plan, faults), if tx.phase == Done(Applied) && replies then [] else [Raise]);
    OnePublicationPerScope(e, CommandBody(plan, faults, replies));
    if plan.target.Some? {
      AppliedWasActivated(plan, faults);
    } else {
      NothingInstalledWithoutTarget(plan, faults);
    }
  }

  /** The command asks for something: other files or another catalog. */
  ghost predicate Changes<C>(plan: Plan<C>) {
    NewFiles(plan) != plan.disk.files || Active(plan.runtime, plan.target) != plan.runtime
  }

  /**
   A failing command, recovery having worked, leaves disk and catalog both old if and only if its
   exception came before the transaction was applied. After that both are new.
   */
  lemma FailedCommandLeavesOldIff<C>(e: Engine<C>, plan: Plan<C>, faults: seq<Fault>, replies: bool)
    requires DistinctPaths(plan.changes) && plan.disk.journal.None? && plan.restores && Changes(plan)
    requires e.pending == [] && e.hash == e.catalog && e.catalog == plan.runtime
    requires Execute(plan, faults).phase.Done? && Execute(plan, faults).phase.outcome != RecoveryFailed
    requires !Outermost(e, CommandBody(plan, faults, replies)).1
    ensures var tx := Execute(plan, faults); var after := Outermost(e, CommandBody(plan, faults, replies)).0;
      && ((tx.disk.files == plan.disk.files && after.catalog == e.catalog) <==> tx.phase.outcome != Applied)
      && (tx.phase.outcome == Applied ==> tx.disk == Disk(NewFiles(plan), None) && after.catalog == Active(e.catalog, plan.target))
  {
    ExecutionKeepsInvariant(plan, faults);
    CommandIsAllOrNothing(e, plan, faults, replies);
  }

  /** After a command the published version is the active one exactly when it returned normally or left the catalog alone. */
  lemma CommandUpToDateIff<C>(e: Engine<C>, plan: Plan<C>, faults: seq<Fault>, replies: bool)
    requires DistinctPaths(plan.changes) && plan.disk.journal.None? && plan.restores
    requires e.pending == [] && e.hash == e.catalog && e.catalog == plan.runtime && UpToDate(e)
    requires Execute(plan, faults).phase.Done?
    ensures var r := Outermost(e, CommandBody(plan, faults, replies));
      UpToDate(r.0) <==> r.1 || r.0.catalog == e.catalog
  {
    CommandIsAllOrNothing(e, plan, faults, replies);
    AppliedRuntime(plan, faults);
  }

  lemma AppliedRuntime<C>(plan: Plan<C>, faults: seq<Fault>)
    requires DistinctPaths(plan.changes) && plan.disk.journal.None?
    ensures Execute(plan, faults).phase == Done(Applied) ==> Execute(plan, faults).runtime == Active(plan.runtime, plan.target)
  {
    ExecutionKeepsInvariant(plan, faults);
  }

  lemma AppliedRun<C>(plan: Plan<C>) returns (faults: seq<Fault>)
    requires plan.disk.journal.None?
    ensures Execute(plan, faults).phase == Done(Applied)
  {
    faults := AllReplaced(plan, |plan.changes|);
    faults := Then(plan, Then(plan, faults, Works), Works);
    if plan.target.Some? {
      faults := Then(plan, faults, Works);
    }
  }

  /**
   The files are replaced, the catalog is activated, and reading the files again for the reply
   raises: the command fails with everything new, and the version that serves is not published.
   */
  lemma AppliedCommandCanFail<C>(e: Engine<C>, plan: Plan<C>) returns (faults: seq<Fault>)
    requires DistinctPaths(plan.changes) && plan.disk.journal.None? && plan.restores
    requires plan.target.Some? && plan.target.value != e.catalog
    requires e.pending == [] && e.hash == e.catalog && e.catalog == plan.runtime && UpToDate(e)
    ensures var tx := Execute(plan, faults); var r := Outermost(e, CommandBody(plan, faults, false));
      && !r.1 && tx.disk == Disk(NewFiles(plan), None) && r.0.catalog == plan.target.value
      && r.0.published == e.published && !UpToDate(r.0)
  {
    faults := AppliedRun(plan);
    ExecutionKeepsInvariant(plan, faults);
    CommandIsAllOrNothing(e, plan, faults, false);
  }

  // The engine's fields, changed in place

  class ConfiguredEngine<C(==)> {
    var files: Files
    var catalog: C
    var configHash: C
    var pending: seq<bool>
    var published: seq<C>

    constructor (files: Files, catalog: C)
      ensures this.files == files && State() == Engine(catalog, catalog, [catalog], [])
    {
      this.files, this.catalog, configHash, pending, published := files, catalog, catalog, [], [catalog];
    }

    ghost function State(): Engine<C>
      reads this
    {
      Engine(catalog, configHash, published, pending)
    }

    /** Notes the version with the innermost scope, or submits it. */
    method RegisterConfig(version: C)
      modifies this`pending, this`published
      ensures State() == Register(old(State()), version)
    {
      if pending != [] {
        pending := pending[|pending| - 1 := true];
      } else {
        published := published + [version];
      }
    }

    /** Swaps in another catalog; an exception comes before anything is swapped. */
    method ReloadCatalog(next: C) returns (ok: bool)
      modifies this`catalog, this`configHash, this`pending, this`published
      ensures State() == if ok then Reloaded(old(State()), next) else old(State())
    {
      ok := *;
      if ok {
        RegisterConfig(next);
        catalog, configHash := next, next;
      }
    }

    method EnterScope()
      modifies this`pending
      ensures State() == Opened(old(State()))
    {
      pending := pending + [false];
    }

    method LeaveScope(ok: bool)
      requires pending != []
      modifies this`configHash, this`pending, this`published
      ensures State() == Left(old(State()), ok)
    {
      var noted := pending[|pending| - 1];
      pending := pending[..|pending| - 1];
      if ok && noted {
        RegisterConfig(catalog);
        configHash := catalog;
      }
    }

    method ReplaceFile(change: Change) returns (ok: bool)
      modifies this`files
      ensures ok ==> files == Apply(old(files), change)
      ensures !ok ==> files == old(files) || files == Apply(old(files), change)
    {
      var fault: Fault := *;
      if fault.Works? || (fault.FailsAfter? && change.data.Some?) {
        files := Apply(files, change);
      }
      return fault.Works?;
    }

    /**
     Applying a routing document without a recovery journal: write, reload, and on an exception
     put the file and then the catalog back. Whatever fails, the catalog is the new one only on
     success, and only a success is published; the file is the old one again unless putting it
     back failed too.
     */
    method ApplyRoutingDocument(change: Change, next: C) returns (ok: bool, rollbackFailed: bool)
      requires pending == [] && configHash == catalog
      modifies this
      ensures pending == [] && configHash == catalog
      ensures ok ==> files == Apply(old(files), change) && catalog == next && published == old(published) + [next]
      ensures !ok ==> catalog == old(catalog) && published == old(published)
      ensures !ok && !rollbackFailed ==> files == old(files)
      ensures ok ==> !rollbackFailed
    {
      var previous, previousCatalog := Change(change.path, Content(files, change.path)), catalog;
      rollbackFailed := false;
      EnterScope();
      ok := ReplaceFile(change);
      if ok {
        ok := ReloadCatalog(next);
      }
      if !ok {
        var restored := ReplaceFile(previous);
        if restored {
          restored := ReloadCatalog(previousCatalog);
        }
        rollbackFailed := !restored;
        PutBack(old(files), change);
      }
      LeaveScope(ok);
    }
  }

  lemma PutBack(files: Files, change: Change)
    ensures Apply(files, Change(change.path, Content(files, change.path))) == files
    ensures Apply(Apply(files, change), Change(change.path, Content(files, change.path))) == files
  {
  }
}
