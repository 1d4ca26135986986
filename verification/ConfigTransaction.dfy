/**
 One multi-file configuration replacement: its recovery journal, its rollback, and every
 point at which a file operation can fail or the process can stop.

 `Next` is the transaction as a step system driven by one fault per step. The class
 `ConfigurationDirectory` performs the same transaction in place, with loops over the files
 and an arbitrary fault at every operation, and is proved to follow a run of `Next`.
 */
module ConfigTransaction {
  import opened Wrappers

  newtype byte = x: int | 0 <= x < 256
  type Bytes = seq<byte>

  datatype Path = Path(directory: string, name: string)
  type Files = map<Path, Bytes>

  /** The journal is a JSON object keyed by bare file name. */
  type Journal = map<string, Option<Bytes>>

  datatype Disk = Disk(files: Files, journal: Option<Journal>)

  /** One entry of the replacement map; no data means the file is removed. */
  datatype Change = Change(path: Path, data: Option<Bytes>)

  /** What the operating system does with one operation. */
  datatype Fault = Works | FailsBefore | FailsAfter

  datatype Outcome =
    | Refused        // raised before any target was touched
    | Applied        // normal return
    | Restored       // the original error is raised again, everything put back
    | RecoveryFailed // restoring failed; the journal is kept
    | DiscardFailed  // everything put back, but the journal could not be removed

  datatype Phase =
    | Opening
    | Replacing(next: nat)
    | Activating
    | Committing
    | Restoring(next: nat)
    | RestoringRuntime
    | Discarding
    | Done(outcome: Outcome)

  /**
   What a call of the transaction was given, and the world it started in.
   `target` is the catalog the activation callback installs, when there is one.
   */
  datatype Plan<R> = Plan(disk: Disk, changes: seq<Change>, runtime: R, target: Option<R>, restores: bool)

  datatype Transaction<R> = Transaction(phase: Phase, disk: Disk, runtime: R, failed: bool)

  // Files

  function Content(files: Files, path: Path): Option<Bytes> {
    if path in files then Some(files[path]) else None
  }

  function Apply(files: Files, change: Change): Files {
    match change.data
    case None => files - {change.path}
    case Some(data) => files[change.path := data]
  }

  function ApplyAll(files: Files, changes: seq<Change>): Files {
    if changes == [] then files
    else Apply(ApplyAll(files, changes[..|changes| - 1]), changes[|changes| - 1])
  }

  function Previous(files: Files, changes: seq<Change>): (previous: seq<Change>)
    ensures |previous| == |changes|
  {
    seq(|changes|, i requires 0 <= i < |changes| => Change(changes[i].path, Content(files, changes[i].path)))
  }

  function JournalOf(previous: seq<Change>): Journal {
    if previous == [] then map[]
    else
      var last := previous[|previous| - 1];
      JournalOf(previous[..|previous| - 1])[last.path.name := last.data]
  }

  /** A replacement map has one entry per path. */
  ghost predicate DistinctPaths(changes: seq<Change>) {
    forall i, j :: 0 <= i < j < |changes| ==> changes[i].path != changes[j].path
  }

  ghost predicate DistinctNames(changes: seq<Change>) {
    forall i, j :: 0 <= i < j < |changes| ==> changes[i].path.name != changes[j].path.name
  }

  ghost predicate Targets(changes: seq<Change>, path: Path) {
    exists i :: 0 <= i < |changes| && changes[i].path == path
  }

  // The step system

  function Initial<R>(plan: Plan<R>): Transaction<R> {
    Transaction(Opening, plan.disk, plan.runtime, false)
  }

  /** An unlink either happens or raises without effect; a replacement can also raise once it is visible. */
  function Effect(files: Files, change: Change, fault: Fault): Files {
    if fault.Works? || (fault.FailsAfter? && change.data.Some?) then Apply(files, change) else files
  }

  function Next<R>(plan: Plan<R>, tx: Transaction<R>, fault: Fault): Transaction<R> {
    match tx.phase
    case Opening =>
      if tx.disk.journal.Some? || fault.FailsBefore? then tx.(phase := Done(Refused))
      else tx.(
        disk := tx.disk.(journal := Some(JournalOf(Previous(tx.disk.files, plan.changes)))),
        phase := if fault.Works? then Replacing(0) else Done(Refused))
    case Replacing(i) =>
      if i >= |plan.changes| then tx.(phase := if plan.target.Some? then Activating else Committing)
      else tx.(
        disk := tx.disk.(files := Effect(tx.disk.files, plan.changes[i], fault)),
        phase := if fault.Works? then Replacing(i + 1) else Restoring(0))
    case Activating =>
      tx.(
        runtime := if plan.target.Some? && !fault.FailsBefore? then plan.target.value else tx.runtime,
        phase := if fault.Works? then Committing else Restoring(0))
    case Committing =>
      if fault.Works? then tx.(disk := tx.disk.(journal := None), phase := Done(Applied))
      else tx.(phase := Restoring(0))
    case Restoring(i) =>
      if i >= |plan.changes| then tx.(phase := RestoringRuntime)
      else tx.(
        disk := tx.disk.(files := Effect(tx.disk.files, Previous(plan.disk.files, plan.changes)[i], fault)),
        failed := tx.failed || !fault.Works?,
        phase := Restoring(i + 1))
    case RestoringRuntime =>
      var failed := tx.failed || (plan.restores && !fault.Works?);
      tx.(
        runtime := if plan.restores && !fault.FailsBefore? then plan.runtime else tx.runtime,
        failed := failed,
        phase := if failed then Done(RecoveryFailed) else Discarding)
    case Discarding =>
      if fault.Works? then tx.(disk := tx.disk.(journal := None), phase := Done(Restored))
      else tx.(phase := Done(DiscardFailed))
    case Done(_) => tx
  }

  /** Where the transaction stands after a given sequence of faults; stopping it there is a crash. */
  function Execute<R>(plan: Plan<R>, faults: seq<Fault>): Transaction<R> {
    if faults == [] then Initial(plan)
    else Next(plan, Execute(plan, faults[..|faults| - 1]), faults[|faults| - 1])
  }

  // What every step keeps

  function NewFiles<R>(plan: Plan<R>): Files {
    ApplyAll(plan.disk.files, plan.changes)
  }

  function OldJournal<R>(plan: Plan<R>): Journal {
    JournalOf(Previous(plan.disk.files, plan.changes))
  }

  /** Nothing but the targets differs from the files the transaction started with. */
  ghost predicate SameElsewhere(old_: Files, files: Files, changes: seq<Change>) {
    forall path :: !Targets(changes, path) ==> Content(files, path) == Content(old_, path)
  }

  ghost predicate SameBefore(old_: Files, files: Files, changes: seq<Change>, n: int) {
    forall i :: 0 <= i < n && i < |changes| ==> Content(files, changes[i].path) == Content(old_, changes[i].path)
  }

  ghost predicate InFlight(phase: Phase) {
    !phase.Opening? && !phase.Done?
  }

  ghost predicate Invariant<R>(plan: Plan<R>, tx: Transaction<R>) {
    && DistinctPaths(plan.changes)
    && (tx.phase.Opening? ==> tx == Initial(plan))
    && (plan.disk.journal.Some? && tx.phase.Done? ==> tx.disk == plan.disk && tx.phase.outcome == Refused && tx.runtime == plan.runtime)
    && (plan.disk.journal.Some? ==> !InFlight(tx.phase))
    && (InFlight(tx.phase) ==> tx.disk.journal == Some(OldJournal(plan)))
    && SameElsewhere(plan.disk.files, tx.disk.files, plan.changes)
    && (tx.phase.Replacing? ==> tx.phase.next <= |plan.changes| && tx.disk.files == ApplyAll(plan.disk.files, plan.changes[..tx.phase.next]))
    && (tx.phase.Activating? || tx.phase.Committing? ==> tx.disk.files == NewFiles(plan))
    && (tx.phase.Restoring? ==> tx.phase.next <= |plan.changes| && (tx.failed || SameBefore(plan.disk.files, tx.disk.files, plan.changes, tx.phase.next)))
    && (tx.phase.RestoringRuntime? ==> tx.failed || tx.disk.files == plan.disk.files)
    && (tx.phase.Discarding? ==> !tx.failed && tx.disk.files == plan.disk.files && (plan.restores || plan.target.None? ==> tx.runtime == plan.runtime))
    && (tx.phase.Replacing? || (plan.target.None? && !tx.phase.Done?) ==> tx.runtime == plan.runtime)
    && (tx.phase.Committing? ==> tx.runtime == (if plan.target.Some? then plan.target.value else plan.runtime))
    && (tx.phase.Done? ==> DoneWell(plan, tx))
  }

  /** What the caller finds when the transaction is over, by the way it ended. */
  ghost predicate DoneWell<R>(plan: Plan<R>, tx: Transaction<R>)
    requires tx.phase.Done?
  {
    match tx.phase.outcome
    case Refused =>
      && tx.disk.files == plan.disk.files
      && tx.runtime == plan.runtime
      && (tx.disk.journal == plan.disk.journal || (plan.disk.journal.None? && tx.disk.journal == Some(OldJournal(plan))))
    case Applied =>
      && tx.disk == Disk(NewFiles(plan), None)
      && tx.runtime == (if plan.target.Some? then plan.target.value else plan.runtime)
    case Restored =>
      && tx.disk == Disk(plan.disk.files, None)
      && (plan.restores || plan.target.None? ==> tx.runtime == plan.runtime)
    case DiscardFailed =>
      && tx.disk == Disk(plan.disk.files, Some(OldJournal(plan)))
      && (plan.restores || plan.target.None? ==> tx.runtime == plan.runtime)
    case RecoveryFailed =>
      tx.disk.journal == Some(OldJournal(plan))
  }

  lemma ContentOfApply(files: Files, change: Change, path: Path)
    ensures Content(Apply(files, change), path) == if path == change.path then change.data else Content(files, path)
  {
  }

  lemma SameFiles(a: Files, b: Files)
    requires forall path :: Content(a, path) == Content(b, path)
    ensures a == b
  {
    forall path | path in a.Keys + b.Keys ensures path in a && path in b && a[path] == b[path] {
      assert Content(a, path) == Content(b, path);
    }
    assert a.Keys == b.Keys;
  }

  lemma EffectElsewhere(old_: Files, files: Files, changes: seq<Change>, change: Change, fault: Fault)
    requires SameElsewhere(old_, files, changes)
    requires Targets(changes, change.path)
    ensures SameElsewhere(old_, Effect(files, change, fault), changes)
  {
    forall path | !Targets(changes, path)
      ensures Content(Effect(files, change, fault), path) == Content(old_, path)
    {
      ContentOfApply(files, change, path);
    }
  }

  lemma RestoreKeepsPrefix<R>(plan: Plan<R>, tx: Transaction<R>, fault: Fault)
    requires Invariant(plan, tx) && tx.phase.Restoring? && tx.phase.next < |plan.changes| && !tx.failed && fault.Works?
    ensures SameBefore(plan.disk.files, Next(plan, tx, fault).disk.files, plan.changes, tx.phase.next + 1)
  {
    var i := tx.phase.next;
    var change := Previous(plan.disk.files, plan.changes)[i];
    forall j | 0 <= j < i + 1
      ensures Content(Next(plan, tx, fault).disk.files, plan.changes[j].path) == Content(plan.disk.files, plan.changes[j].path)
    {
      ContentOfApply(tx.disk.files, change, plan.changes[j].path);
    }
  }

  lemma RestoredEverything<R>(plan: Plan<R>, tx: Transaction<R>)
    requires Invariant(plan, tx) && tx.phase == Restoring(|plan.changes|) && !tx.failed
    ensures tx.disk.files == plan.disk.files
  {
    forall path ensures Content(tx.disk.files, path) == Content(plan.disk.files, path) {
      if Targets(plan.changes, path) {
        var i :| 0 <= i < |plan.changes| && plan.changes[i].path == path;
      }
    }
    SameFiles(tx.disk.files, plan.disk.files);
  }

  /** Every step, under every fault, keeps the invariant. */
  lemma StepKeepsInvariant<R>(plan: Plan<R>, tx: Transaction<R>, fault: Fault)
    requires Invariant(plan, tx)
    ensures Invariant(plan, Next(plan, tx, fault))
  {
    var after := Next(plan, tx, fault);
    match tx.phase
    case Replacing(i) =>
      if i < |plan.changes| {
        assert Targets(plan.changes, plan.changes[i].path);
        EffectElsewhere(plan.disk.files, tx.disk.files, plan.changes, plan.changes[i], fault);
        assert plan.changes[..i + 1][..i] == plan.changes[..i];
      } else {
        assert plan.changes[..i] == plan.changes;
      }
    case Restoring(i) =>
      if i < |plan.changes| {
        assert Targets(plan.changes, plan.changes[i].path);
        EffectElsewhere(plan.disk.files, tx.disk.files, plan.changes, Previous(plan.disk.files, plan.changes)[i], fault);
        if !tx.failed && fault.Works? {
          RestoreKeepsPrefix(plan, tx, fault);
        }
      } else if !tx.failed {
        RestoredEverything(plan, tx);
      }
    case Activating =>
    case RestoringRuntime =>
    case _ =>
  }

  lemma {:induction false} ExecutionKeepsInvariant<R>(plan: Plan<R>, faults: seq<Fault>)
    requires DistinctPaths(plan.changes)
    ensures Invariant(plan, Execute(plan, faults))
  {
    if faults != [] {
      var n := |faults| - 1;
      ExecutionKeepsInvariant(plan, faults[..n]);
      StepKeepsInvariant(plan, Execute(plan, faults[..n]), faults[n]);
    }
  }

  // The journal

  lemma {:induction false} JournalHolds(previous: seq<Change>, i: nat)
    requires i < |previous|
    ensures previous[i].path.name in JournalOf(previous)
    ensures exists j :: i <= j < |previous| && previous[j].path.name == previous[i].path.name
                        && JournalOf(previous)[previous[i].path.name] == previous[j].data
  {
    var n := |previous| - 1;
    if i < n {
      JournalHolds(previous[..n], i);
      if previous[n].path.name == previous[i].path.name {
        assert JournalOf(previous)[previous[i].path.name] == previous[n].data;
      } else {
        var j :| i <= j < n && previous[..n][j].path.name == previous[i].path.name
                 && JournalOf(previous[..n])[previous[i].path.name] == previous[..n][j].data;
        assert previous[j].path.name == previous[i].path.name;
      }
    }
  }

  /** The journal lets a reader of it put every target back. */
  ghost predicate JournalFaithful(files: Files, changes: seq<Change>) {
    var journal := JournalOf(Previous(files, changes));
    forall i :: 0 <= i < |changes| ==>
      changes[i].path.name in journal && journal[changes[i].path.name] == Content(files, changes[i].path)
  }

  /**
   The journal is keyed by bare name: it is faithful exactly when targets that share a
   name also had the same content.
   */
  lemma JournalFaithfulIff(files: Files, changes: seq<Change>)
    ensures JournalFaithful(files, changes) <==>
            (forall i, j :: 0 <= i < |changes| && 0 <= j < |changes| && changes[i].path.name == changes[j].path.name
               ==> Content(files, changes[i].path) == Content(files, changes[j].path))
  {
    var previous := Previous(files, changes);
    forall i | 0 <= i < |changes|
      ensures changes[i].path.name in JournalOf(previous)
      ensures exists j :: 0 <= j < |changes| && changes[j].path.name == changes[i].path.name
                          && JournalOf(previous)[changes[i].path.name] == Content(files, changes[j].path)
    {
      JournalHolds(previous, i);
      var j :| i <= j < |previous| && previous[j].path.name == previous[i].path.name
               && JournalOf(previous)[previous[i].path.name] == previous[j].data;
      assert changes[j].path.name == changes[i].path.name;
    }
  }

  /** Two directories with one file name between them: the journal keeps only the second content. */
  lemma JournalCanCollide()
    ensures exists files: Files, changes: seq<Change> :: DistinctPaths(changes) && !JournalFaithful(files, changes)
  {
    var p, q := Path("a", "models.json"), Path("b", "models.json");
    var files: Files := map[p := [1], q := [2]];
    var changes := [Change(p, None), Change(q, None)];
    assert changes[0].path.name == changes[1].path.name;
    assert Content(files, changes[0].path) != Content(files, changes[1].path);
    JournalFaithfulIff(files, changes);
    assert DistinctPaths(changes) && !JournalFaithful(files, changes);
  }

  /** Writes a journal's entries back over the targets, as an operator repairing the directory does. */
  function RestoreFrom(files: Files, journal: Journal, changes: seq<Change>): Files {
    if changes == [] then files
    else
      var rest := RestoreFrom(files, journal, changes[..|changes| - 1]);
      var path := changes[|changes| - 1].path;
      if path.name in journal then Apply(rest, Change(path, journal[path.name])) else rest
  }

  lemma {:induction false} ContentOfRestore(files: Files, journal: Journal, changes: seq<Change>, path: Path)
    ensures Content(RestoreFrom(files, journal, changes), path) ==
            if Targets(changes, path) && path.name in journal then journal[path.name] else Content(files, path)
  {
    if changes != [] {
      var n := |changes| - 1;
      ContentOfRestore(files, journal, changes[..n], path);
      assert Targets(changes, path) <==> Targets(changes[..n], path) || changes[n].path == path by {
        if Targets(changes, path) && changes[n].path != path {
          var i :| 0 <= i < |changes| && changes[i].path == path;
          assert changes[..n][i].path == path;
        }
        if Targets(changes[..n], path) {
          var i :| 0 <= i < n && changes[..n][i].path == path;
          assert changes[i].path == path;
        }
      }
    }
  }

  lemma RepairRestoresOld(old_: Files, files: Files, changes: seq<Change>)
    requires SameElsewhere(old_, files, changes) && JournalFaithful(old_, changes)
    ensures RestoreFrom(files, JournalOf(Previous(old_, changes)), changes) == old_
  {
    var journal := JournalOf(Previous(old_, changes));
    var repaired := RestoreFrom(files, journal, changes);
    forall path ensures Content(repaired, path) == Content(old_, path) {
      ContentOfRestore(files, journal, changes, path);
      if Targets(changes, path) {
        var i :| 0 <= i < |changes| && changes[i].path == path;
      }
    }
    SameFiles(repaired, old_);
  }

  lemma DistinctNamesAreFaithful(files: Files, changes: seq<Change>)
    requires DistinctNames(changes)
    ensures DistinctPaths(changes) && JournalFaithful(files, changes)
  {
    JournalFaithfulIff(files, changes);
    forall i, j | 0 <= i < j < |changes| ensures changes[i].path != changes[j].path {
      assert changes[i].path.name != changes[j].path.name;
    }
  }

  // Main results

  /**
   Wherever a transaction stops, by a failure or by the process ending: with no journal the
   files are all old or all new; with a journal, writing it back gives exactly the old files.
   */
  lemma EveryStopIsRecoverable<R>(plan: Plan<R>, faults: seq<Fault>)
    requires DistinctNames(plan.changes) && plan.disk.journal.None?
    ensures var disk := Execute(plan, faults).disk;
      match disk.journal
      case None => disk.files == plan.disk.files || disk.files == NewFiles(plan)
      case Some(journal) => RestoreFrom(disk.files, journal, plan.changes) == plan.disk.files
  {
    DistinctNamesAreFaithful(plan.disk.files, plan.changes);
    ExecutionKeepsInvariant(plan, faults);
    RepairRestoresOld(plan.disk.files, Execute(plan, faults).disk.files, plan.changes);
  }

  /** A finished transaction leaves disk and runtime both new or, unless recovery itself failed, both old. */
  ghost predicate AllOrNothing<R>(plan: Plan<R>, tx: Transaction<R>) {
    tx.phase.Done? ==>
      match tx.phase.outcome
      case Applied => tx.disk == Disk(NewFiles(plan), None) && (plan.target.Some? ==> tx.runtime == plan.target.value)
      case RecoveryFailed => tx.disk.journal.Some?
      case _ => tx.disk.files == plan.disk.files && tx.runtime == plan.runtime
  }

  /**
   Every ending is all or nothing exactly when a transaction that activates another catalog
   was also given the callback that puts the first one back.
   */
  lemma AllOrNothingIff<R>(plan: Plan<R>)
    requires DistinctPaths(plan.changes) && plan.disk.journal.None?
    ensures (forall faults :: AllOrNothing(plan, Execute(plan, faults))) <==>
            plan.restores || plan.target.None? || plan.target.value == plan.runtime
  {
    if plan.restores || plan.target.None? {
      forall faults ensures AllOrNothing(plan, Execute(plan, faults)) {
        ExecutionKeepsInvariant(plan, faults);
      }
    } else if plan.target.value == plan.runtime {
      forall faults ensures AllOrNothing(plan, Execute(plan, faults)) {
        ExecutionKeepsInvariant(plan, faults);
        RuntimeNeverMoves(plan, faults);
      }
    } else {
      var faults := LateFailure(plan, |plan.changes|);
      faults := Then(plan, Then(plan, Then(plan, faults, Works), Works), Works);
      assert !AllOrNothing(plan, Execute(plan, faults));
    }
  }

  lemma {:induction false} RuntimeNeverMoves<R>(plan: Plan<R>, faults: seq<Fault>)
    requires plan.target == Some(plan.runtime)
    ensures Execute(plan, faults).runtime == plan.runtime
  {
    if faults != [] {
      RuntimeNeverMoves(plan, faults[..|faults| - 1]);
    }
  }

  lemma {:induction false} AllReplaced<R>(plan: Plan<R>, n: nat) returns (faults: seq<Fault>)
    requires plan.disk.journal.None? && n <= |plan.changes|
    ensures var tx := Execute(plan, faults); tx.phase == Replacing(n) && tx.runtime == plan.runtime && !tx.failed
  {
    if n == 0 {
      faults := Then(plan, [], Works);
    } else {
      faults := AllReplaced(plan, n - 1);
      faults := Then(plan, faults, Works);
    }
  }

  /** The journal cannot be removed after activation, and the first n files are then restored. */
  lemma {:induction false} LateFailure<R>(plan: Plan<R>, n: nat) returns (faults: seq<Fault>)
    requires plan.disk.journal.None? && plan.target.Some? && n <= |plan.changes|
    ensures var tx := Execute(plan, faults); tx.phase == Restoring(n) && tx.runtime == plan.target.value && !tx.failed
  {
    if n == 0 {
      faults := AllReplaced(plan, |plan.changes|);
      faults := Then(plan, Then(plan, Then(plan, faults, Works), Works), FailsBefore);
    } else {
      faults := LateFailure(plan, n - 1);
      faults := Then(plan, faults, Works);
    }
  }

  // The transaction as it runs: one directory, changed in place

  class ConfigurationDirectory<R> {
    var files: Files
    var journal: Option<Journal>
    var runtime: R

    constructor (files: Files, runtime: R)
      ensures this.files == files && this.journal == None && this.runtime == runtime
    {
      this.files, this.journal, this.runtime := files, None, runtime;
    }

    ghost function State(phase: Phase, failed: bool): Transaction<R>
      reads this
    {
      Transaction(phase, Disk(files, journal), runtime, failed)
    }

    /** Replaces or removes one file; the result reports what the operating system did. */
    method AtomicBytes(change: Change) returns (fault: Fault)
      modifies this`files
      ensures files == Effect(old(files), change, fault)
    {
      fault := *;
      if fault.Works? || (fault.FailsAfter? && change.data.Some?) {
        files := Apply(files, change);
      }
    }

    /** The replacements, up to the first one that raises. */
    method ReplaceAll(plan: Plan<R>, ghost before: seq<Fault>) returns (worked: bool, ghost faults: seq<Fault>)
      requires Execute(plan, before) == State(Replacing(0), false)
      modifies this`files
      ensures Execute(plan, faults) == State(if worked then Replacing(|plan.changes|) else Restoring(0), false)
    {
      worked, faults := true, before;
      var i := 0;
      while i < |plan.changes| && worked
        invariant 0 <= i <= |plan.changes|
        invariant Execute(plan, faults) == State(if worked then Replacing(i) else Restoring(0), false)
        decreases |plan.changes| - i, worked
      {
        var fault := AtomicBytes(plan.changes[i]);
        faults := Then(plan, faults, fault);
        worked := fault.Works?;
        if worked {
          i := i + 1;
        }
      }
    }

    /** The rollback: every target is tried, whatever happened to the others. */
    method RestoreAll(plan: Plan<R>, previous: seq<Change>, ghost before: seq<Fault>)
      returns (failed: bool, ghost faults: seq<Fault>)
      requires previous == Previous(plan.disk.files, plan.changes)
      requires Execute(plan, before) == State(Restoring(0), false)
      modifies this`files
      ensures Execute(plan, faults) == State(RestoringRuntime, failed)
    {
      failed, faults := false, before;
      var i := 0;
      while i < |previous|
        invariant 0 <= i <= |previous|
        invariant Execute(plan, faults) == State(Restoring(i), failed)
      {
        var fault := AtomicBytes(previous[i]);
        faults := Then(plan, faults, fault);
        failed := failed || !fault.Works?;
        i := i + 1;
      }
      faults := Then(plan, faults, Works);
    }

    /** Runs the activation callback, when there is one, and removes the journal. */
    method ActivateAndCommit(plan: Plan<R>, ghost before: seq<Fault>) returns (worked: bool, ghost faults: seq<Fault>)
      requires Execute(plan, before) == State(Replacing(|plan.changes|), false)
      modifies this`runtime, this`journal
      ensures Execute(plan, faults) == State(if worked then Done(Applied) else Restoring(0), false)
    {
      var fault: Fault := Works;
      faults := Then(plan, before, Works);
      if plan.target.Some? {
        fault := *;
        if !fault.FailsBefore? {
          runtime := plan.target.value;
        }
        faults := Then(plan, faults, fault);
      }
      if fault.Works? {
        fault := *;
        if fault.Works? {
          journal := None;
        }
        faults := Then(plan, faults, fault);
      }
      worked := fault.Works?;
    }

    /**
     The whole transaction. The ghost result is the list of faults it met: the step system,
     driven by them from the state on entry, ends in the state on return.
     */
    method ReplaceConfiguration(changes: seq<Change>, activate: Option<R>, restores: bool)
      returns (outcome: Outcome, ghost faults: seq<Fault>)
      modifies this
      ensures var end := Execute(Plan(old(Disk(files, journal)), changes, old(runtime), activate, restores), faults);
        && end.phase == Done(outcome)
        && end.disk == Disk(files, journal)
        && end.runtime == runtime
    {
      var plan := Plan(Disk(files, journal), changes, runtime, activate, restores);
      var previous := Previous(files, changes);
      var fault: Fault := *;
      faults := Then(plan, [], fault);
      if journal.Some? || fault.FailsBefore? {
        return Refused, faults;
      }
      journal := Some(JournalOf(previous));
      if !fault.Works? {
        return Refused, faults;
      }
      var worked;
      worked, faults := ReplaceAll(plan, faults);
      if worked {
        worked, faults := ActivateAndCommit(plan, faults);
        if worked {
          return Applied, faults;
        }
      }
      outcome, faults := RollBack(plan, previous, faults);
    }

    /** Puts files and catalog back; the journal goes only when everything was put back. */
    method RollBack(plan: Plan<R>, previous: seq<Change>, ghost before: seq<Fault>)
      returns (outcome: Outcome, ghost faults: seq<Fault>)
      requires previous == Previous(plan.disk.files, plan.changes)
      requires Execute(plan, before) == State(Restoring(0), false)
      modifies this
      ensures Execute(plan, faults) == State(Done(outcome), outcome.RecoveryFailed?)
    {
      var failed;
      failed, faults := RestoreAll(plan, previous, before);
      var fault: Fault := Works;
      if plan.restores {
        fault := *;
        if !fault.FailsBefore? {
          runtime := plan.runtime;
        }
        failed := failed || !fault.Works?;
      }
      faults := Then(plan, faults, fault);
      if failed {
        return RecoveryFailed, faults;
      }
      fault := *;
      if fault.Works? {
        journal := None;
      }
      faults := Then(plan, faults, fault);
      return if fault.Works? then Restored else DiscardFailed, faults;
    }
  }

  ghost function Then<R>(plan: Plan<R>, faults: seq<Fault>, fault: Fault): (longer: seq<Fault>)
    ensures Execute(plan, longer) == Next(plan, Execute(plan, faults), fault)
  {
    assert (faults + [fault])[..|faults|] == faults;
    faults + [fault]
  }
}
