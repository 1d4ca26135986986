/** A whole migration: the overlay it writes is accepted, merged and parsed, and the strategies select as they did. */
module MigrationRuns {
  import opened Wrappers
  import opened Catalogs
  import opened PolicyText
  import opened Overlay
  import opened Migration
  import opened Workflows
  import Reparse
  import Reprint
  import Selection

  // The overlay is accepted

  /** What loading a catalog has checked of its strategies. */
  ghost predicate IsValid(strategies: seq<Legacy>, around: Surroundings) {
    && OncePerStrategy(strategies)
    && forall i :: 0 <= i < |strategies| ==> IsPlaced(strategies[i].definition, around) && strategies[i].definition.policy.policy.labels != []
  }

  /** Its name is free, its provider is configured, and so are the models it selects. */
  predicate IsPlaced(d: Definition, around: Surroundings) {
    && d.name !in around.models
    && (d.provider.Some? ==> d.provider.value in around.providers)
    && (d.policy.policy.selectedModels.Some? ==> forall m :: m in d.policy.policy.selectedModels.value ==> m in around.models)
  }

  /** The merge accepts a migrated workflow exactly when loading accepted the strategy it comes from. */
  lemma WorkflowAcceptedIff(from: Legacy, c: Catalog, w: Workflow, around: Surroundings)
    requires IsMigrated(from, c, w) && around.models == Ids(c.profiles)
    ensures CheckWorkflow(w, around).Ok? <==> IsPlaced(from.definition, around)
  {
    var p := from.definition.policy.policy;
    MigratedPoolsWithin(from, c, w);
    assert w.definition.provider == from.definition.provider;
    if p.selectedModels.None? {
      forall m | m in w.selected ensures m in around.models {
        var q :| q in c.profiles && q.name == m;
        assert q.name in Ids(c.profiles);
      }
    }
  }

  ghost predicate OncePerStrategy(strategies: seq<Legacy>) {
    forall i, j :: 0 <= i < j < |strategies| ==> strategies[i].definition.name != strategies[j].definition.name
  }

  ghost predicate HasMatrix(strategies: seq<Legacy>, name: string) {
    exists i :: 0 <= i < |strategies| && strategies[i].definition.kind == MATRIX_KIND && strategies[i].definition.name == name
  }

  lemma {:induction false} MatrixNamesOf(strategies: seq<Legacy>)
    ensures forall name :: name in MatrixNames(strategies) <==> HasMatrix(strategies, name)
  {
    if strategies != [] {
      var n := |strategies| - 1;
      MatrixNamesOf(strategies[..n]);
      forall name ensures name in MatrixNames(strategies) <==> HasMatrix(strategies, name) {
        if HasMatrix(strategies[..n], name) {
          var i :| 0 <= i < n && strategies[..n][i].definition.kind == MATRIX_KIND && strategies[..n][i].definition.name == name;
          assert strategies[i].definition.name == name;
        }
        if i :| 0 <= i < |strategies| && strategies[i].definition.kind == MATRIX_KIND && strategies[i].definition.name == name {
          if i < n { assert strategies[..n][i].definition.name == name; }
        }
      }
    }
  }

  lemma {:induction false} MatrixNamesDiffer(strategies: seq<Legacy>)
    requires OncePerStrategy(strategies)
    ensures Distinct(MatrixNames(strategies))
  {
    if strategies != [] {
      var n := |strategies| - 1;
      MatrixNamesDiffer(strategies[..n]);
      MatrixNamesOf(strategies[..n]);
      assert strategies[n].definition.name !in MatrixNames(strategies[..n]);
    }
  }

  /** A loaded catalog migrates to an overlay that the merge accepts. */
  lemma MigrationIsAccepted(
      strategies: seq<Legacy>, c: Catalog, tunings: seq<Tuning>, o: Overlay, around: Surroundings, bodies: seq<Entry>, defaultStrategy: string)
    requires IsMigration(strategies, c, tunings, o) && IsValid(strategies, around) && around.models == Ids(c.profiles)
    requires TunedOnce(tunings) && forall t :: t in tunings ==> t.model in around.models
    ensures WellShaped(o) && Acceptable(bodies, defaultStrategy, o, around)
  {
    MatrixNamesDiffer(strategies);
    forall j | 0 <= j < |o.workflows| ensures CheckWorkflow(o.workflows[j], around).Ok? {
      var i :| 0 <= i < |strategies| && IsMigrated(strategies[i], c, o.workflows[j]);
      WorkflowAcceptedIff(strategies[i], c, o.workflows[j], around);
    }
  }

  // A workflow is read back

  function MigratedDefinition(d: Definition, selected: seq<string>): Definition {
    d.(policy := Normal(MigratedText(d.policy, selected)))
  }

  /** The options of a strategy may have been changed by the overlay that is migrated, and nothing else of it. */
  predicate SameButOptions(a: Definition, b: Definition) {
    a == b.(options := a.options) && a.options.JObject?
  }

  /** Changed options change nothing else of what a body parses to. */
  lemma ChangedOptions(e: Entry, p: Result<Text, Invalid>, d: Definition)
    requires ParseBody(e, p).Ok? && SameButOptions(d, ParseBody(e, p).value)
    ensures p.Ok? && ParseBody(Entry(e.name, e.body.(options := Some(d.options))), Ok(p.value)) == Ok(d) && d.policy == p.value
  {
  }

  lemma InstalledReadsBack(
      e: Entry, p: Result<Text, Invalid>, d: Definition, body: Body, again: Result<Text, Invalid>, trimmed: Text, meant: Text)
    requires ParseBody(e, p).Ok? && SameButOptions(d, ParseBody(e, p).value)
    requires body.(policy := JNull) == PrintBody(d).(policy := JNull) && body.policy.JObject?
    requires again.Ok? ==> again == Ok(trimmed)
    ensures var r := ParseBody(Entry(d.name, body), again);
      && (r.Ok? <==> again.Ok?) && (r.Ok? ==> r == Ok(d.(policy := trimmed)))
      && (r == Ok(d.(policy := meant)) <==> again == Ok(meant))
  {
    ChangedOptions(e, p, d);
    InstalledBody(Entry(e.name, e.body.(options := Some(d.options))), p.value, d, body, again);
  }

  function TrimmedMigration(d: Definition, selected: seq<string>): Definition {
    d.(policy := Normal(Reparse.Trimmed(MigratedText(d.policy, selected))))
  }

  /** No label is inherited with an explicitly empty pool, or without a pool and with a default tag that is malformed even when trimmed. */
  predicate StillMigrates(data: map<string, Json>, base: Option<Text>, strategy: string) {
    "labels" !in data && "tier_models" !in data && base.Some? ==>
      forall i :: 0 <= i < |base.value.policy.labels| ==> StillMigrated(strategy, base.value.policy.labels[i])
  }

  predicate StillMigrated(strategy: string, l: Label) {
    l.route.models == [] && l.route.tag.None? ==> !l.route.explicitModels && TagOk(Strip(strategy + "/" + l.name))
  }

  lemma InheritedMigrateIff(strategy: string, labels: seq<Label>, selected: seq<string>)
    requires "" !in selected && forall i :: 0 <= i < |labels| ==> Reprint.BaseLabelOk(labels[i])
    ensures Reparse.AllParse(FilterLabels(InheritLabels(strategy, labels), selected), true) <==>
            forall i :: 0 <= i < |labels| ==> StillMigrated(strategy, labels[i])
  {
    var filtered := FilterLabels(InheritLabels(strategy, labels), selected);
    forall i | 0 <= i < |labels|
      ensures Reparse.LabelParses(filtered[i], true) <==> StillMigrated(strategy, labels[i])
    {
      assert Reprint.BaseLabelOk(labels[i]);
    }
    if Reparse.AllParse(filtered, true) {
      forall i | 0 <= i < |labels| ensures StillMigrated(strategy, labels[i]) {
        assert Reparse.LabelParses(filtered[i], true);
      }
    }
  }

  lemma MigratedLabelsParseIff(data: map<string, Json>, base: Option<Text>, top: map<string, Json>, strategy: string, selected: seq<string>)
    requires Reprint.IsBaseline(base, top) && ParsePolicy(data, base, strategy).Ok? && "" !in selected
    ensures var p := ParsePolicy(data, base, strategy).value.policy;
      p.labels != [] && (Reparse.AllParse(FilterLabels(p.labels, selected), true) <==> StillMigrates(data, base, strategy))
  {
    if base.Some? { Reprint.TopLevelLabels(top, "task_aware"); }
    Reprint.ParsedParts(data, base, strategy);
    MigratedLabelsIff(data, base, top, strategy, selected);
    var filtered := FilterLabels(ParsePolicy(data, base, strategy).value.policy.labels, selected);
    if "labels" !in data && "tier_models" !in data && base.Some? {
      InheritedMigrateIff(strategy, base.value.policy.labels, selected);
    } else {
      Reparse.PrintableParse(filtered, true);
    }
  }

  /** What a migrated policy needs of its other parts, under its own base or under none. */
  lemma MigratedRest(data: map<string, Json>, base: Option<Text>, top: map<string, Json>, strategy: string, selected: seq<string>)
    requires Reprint.IsBaseline(base, top) && ParsePolicy(data, base, strategy).Ok?
    ensures var t := ParsePolicy(data, base, strategy).value; var m := MigratedText(t, selected);
      && t.policy.budget.maxCost != Some(JNull)
      && ReasoningPrintable(m.reasoning, Defaults(base).reasoning, m.policy.labels)
      && ReasoningPrintable(m.reasoning, DEFAULTS.reasoning, m.policy.labels)
  {
    Reparse.ParsedRest(data, base, top, strategy);
    EffortsCoverDefaults(data, base, top, strategy);
    FilteredNames(ParsePolicy(data, base, strategy).value.policy.labels, selected);
  }

  /** The document a migration writes is accepted exactly when no inherited label is refused, and only tags can change. */
  lemma MigratedParsesIff(
      data: map<string, Json>, base: Option<Text>, top: map<string, Json>, strategy: string,
      selected: seq<string>, fields: map<string, Json>)
    requires Reprint.IsBaseline(base, top) && ParsePolicy(data, base, strategy).Ok? && SelectedOk(selected)
    requires IsPrinted(fields, MigratedText(ParsePolicy(data, base, strategy).value, selected))
    ensures var m := MigratedText(ParsePolicy(data, base, strategy).value, selected); var again := ParsePolicy(fields, base, strategy);
      && (again.Ok? <==> StillMigrates(data, base, strategy))
      && (again.Ok? ==> again == Ok(Normal(Reparse.Trimmed(m))))
  {
    assert Blank("");
    MigratedLabelsParseIff(data, base, top, strategy, selected);
    MigratedRest(data, base, top, strategy, selected);
    Reparse.PrintedParsesIff(fields, MigratedText(ParsePolicy(data, base, strategy).value, selected), base, strategy);
  }

  /**
   An installed workflow is accepted if and only if no label it inherits is refused, and it is the
   migrated strategy if and only if it inherits no label that printing would spoil.
   */
  lemma WorkflowReadsBackIff(
      e: Entry, base: Option<Text>, top: map<string, Json>, strategy: string, from: Legacy, c: Catalog, w: Workflow)
    requires Reprint.IsBaseline(base, top) && ParseDefinition(e, base, strategy).Ok?
    requires SameButOptions(from.definition, ParseDefinition(e, base, strategy).value)
    requires IsMigrated(from, c, w) && SelectedOk(w.selected)
    ensures var again := ParseDefinition(Entry(w.name, Installed(w)), base, strategy);
      && (again.Ok? <==> StillMigrates(PolicyFields(e.body), base, strategy))
      && (again.Ok? ==> again == Ok(TrimmedMigration(from.definition, w.selected)))
      && (again == Ok(MigratedDefinition(from.definition, w.selected)) <==> InheritsCleanly(PolicyFields(e.body), base, strategy))
  {
    var data := PolicyFields(e.body);
    var p := ParsePolicy(data, base, strategy);
    var body := Installed(w);
    var m := MigratedText(from.definition.policy, w.selected);
    ChangedOptions(e, p, from.definition);
    InstalledKeepsTheRest(w, from.definition);
    MigrationReadsBackIff(data, base, top, strategy, w.selected, body.policy.fields);
    MigratedParsesIff(data, base, top, strategy, w.selected, body.policy.fields);
    InstalledReadsBack(e, p, from.definition, body, ParsePolicy(body.policy.fields, base, strategy), Normal(Reparse.Trimmed(m)), Normal(m));
  }

  lemma InstalledKeepsTheRest(w: Workflow, d: Definition)
    requires w.definition.(policy := JNull) == PrintBody(d).(policy := JNull)
    ensures Installed(w).(policy := JNull) == PrintBody(d).(policy := JNull)
  {
  }

  /** Whatever a policy is parsed under, its efforts cover the tiers the defaults have efforts for. */
  lemma EffortsCoverDefaults(data: map<string, Json>, base: Option<Text>, top: map<string, Json>, strategy: string)
    requires Reprint.IsBaseline(base, top) && ParsePolicy(data, base, strategy).Ok?
    ensures Reprint.Sound(ParsePolicy(data, base, strategy).value)
    ensures DEFAULTS.reasoning.byTier.Keys <= ParsePolicy(data, base, strategy).value.reasoning.byTier.Keys
    decreases if base.Some? then 1 else 0
  {
    Reprint.DefaultsAreSound();
    if base.Some? {
      EffortsCoverDefaults(top, None, top, "task_aware");
    }
    Reprint.ParsedIsSound(data, base, strategy);
    Reprint.ParsedParts(data, base, strategy);
    Reprint.ParsedReasoning(data, Defaults(base).reasoning);
  }

  /**
   The same document is also checked by itself, without the baseline, whenever an overlay is
   written or read: it is accepted and read back exactly as the merge would.
   */
  lemma WorkflowShapeIff(
      data: map<string, Json>, base: Option<Text>, top: map<string, Json>, strategy: string,
      selected: seq<string>, fields: map<string, Json>, source: string)
    requires Reprint.IsBaseline(base, top) && ParsePolicy(data, base, strategy).Ok? && SelectedOk(selected)
    requires IsPrinted(fields, MigratedText(ParsePolicy(data, base, strategy).value, selected))
    ensures var alone := ParsePolicy(fields, None, source);
      && (alone.Ok? <==> StillMigrates(data, base, strategy))
      && (alone.Ok? ==> alone == ParsePolicy(fields, base, strategy))
  {
    assert Blank("");
    MigratedLabelsParseIff(data, base, top, strategy, selected);
    MigratedRest(data, base, top, strategy, selected);
    MigratedParsesIff(data, base, top, strategy, selected, fields);
    Reparse.PrintedParsesIff(fields, MigratedText(ParsePolicy(data, base, strategy).value, selected), None, source);
  }

  // The selection of a loaded catalog is a proper one

  ghost predicate ProperIds(profiles: seq<Profile>) {
    UniqueNames(profiles) && forall p :: p in profiles ==> !Blank(p.name)
  }

  lemma {:induction false} NamesInOk(profiles: seq<Profile>, selected: set<string>)
    requires ProperIds(profiles)
    ensures SelectedOk(NamesIn(profiles, selected))
  {
    if profiles != [] {
      assert ProperIds(profiles[1..]);
      NamesInOk(profiles[1..], selected);
      var rest := NamesIn(profiles[1..], selected);
      assert profiles[0].name !in rest by {
        assert forall j :: 0 <= j < |profiles[1..]| ==> profiles[1..][j] == profiles[j + 1] && profiles[0].name != profiles[j + 1].name;
      }
    }
  }

  lemma ReferencedOk(e: Entry, base: Option<Text>, top: map<string, Json>, strategy: string, from: Legacy, c: Catalog, selected: seq<string>)
    requires Reprint.IsBaseline(base, top) && ParseDefinition(e, base, strategy).Ok? && ProperIds(c.profiles)
    requires SameButOptions(from.definition, ParseDefinition(e, base, strategy).value) && from.definition.policy.policy.labels != []
    requires IsReferenced(from.definition.name, from.definition.policy.policy, c, from.raw, selected)
    ensures SelectedOk(selected)
  {
    var p := from.definition.policy.policy;
    if base.Some? { Reprint.ParsedIsSound(top, None, "task_aware"); Reprint.DefaultsAreSound(); }
    Reprint.ParsedIsSound(PolicyFields(e.body), base, strategy);
    if p.selectedModels.None? {
      var names :| selected == NamesIn(c.profiles, names) && AreReferred(from.definition.name, p.labels, c, from.raw, names);
      NamesInOk(c.profiles, names);
    }
  }

  // The whole document

  /** What becomes of one strategy: a matrix is migrated, any other one is printed and read back. */
  ghost predicate IsAfter(from: Legacy, before: Definition, c: Catalog, after: Definition) {
    if from.definition.kind == MATRIX_KIND then
      && from.definition.policy.policy.labels != []
      && exists selected :: IsReferenced(from.definition.name, from.definition.policy.policy, c, from.raw, selected)
           && after == MigratedDefinition(from.definition, selected)
    else after == NormalDefinition(before)
  }

  /** The same without the space around its inherited tags. */
  ghost predicate IsTrimmedAfter(from: Legacy, before: Definition, c: Catalog, after: Definition) {
    if from.definition.kind == MATRIX_KIND then
      && from.definition.policy.policy.labels != []
      && exists selected :: IsReferenced(from.definition.name, from.definition.policy.policy, c, from.raw, selected)
           && after == TrimmedMigration(from.definition, selected)
    else after == TrimmedDefinition(before)
  }

  /** A strategy relies on nothing that its migration, or its printing, loses. */
  predicate IsClean(from: Legacy, data: map<string, Json>, base: Option<Text>, strategy: string) {
    if from.definition.kind == MATRIX_KIND then InheritsCleanly(data, base, strategy) else Reprint.NothingLost(data, base, strategy)
  }

  /** It relies on nothing that is refused afterwards. */
  predicate IsAcceptedAgain(from: Legacy, data: map<string, Json>, base: Option<Text>, strategy: string) {
    if from.definition.kind == MATRIX_KIND then StillMigrates(data, base, strategy) else Reparse.StillParses(data, base, strategy)
  }

  /** The strategies of the effective catalog are the baseline's, up to their options. */
  ghost predicate AreEffective(strategies: seq<Legacy>, definitions: seq<Definition>) {
    |strategies| == |definitions| && forall i :: 0 <= i < |strategies| ==> SameButOptions(strategies[i].definition, definitions[i])
  }

  /** A migration of a loaded catalog and the document it is merged into. */
  ghost predicate IsWhole(
      doc: Document, base: Option<Text>, top: map<string, Json>, strategies: seq<Legacy>, c: Catalog, o: Overlay, entries: seq<Entry>)
  {
    && Reprint.IsBaseline(base, top) && ParseStrategies(doc, base).Ok? && ProperIds(c.profiles)
    && OncePerStrategy(strategies) && AreEffective(strategies, ParseStrategies(doc, base).value.definitions)
    && IsMigration(strategies, c, o.tunings, o) && IsMerge(ParseStrategies(doc, base).value.definitions, o, entries)
  }

  /** The entry of strategy i of the migrated document, and what it is parsed to. */
  ghost predicate IsEntryOf(doc: Document, base: Option<Text>, strategies: seq<Legacy>, c: Catalog, e: Entry, i: nat)
    requires ParseStrategies(doc, base).Ok?
  {
    var definitions := ParseStrategies(doc, base).value.definitions;
    var again := ParseDefinition(e, base, DefaultName(doc));
    && i < |strategies| && i < |definitions| && i < |doc.entries| && strategies[i].definition.name == e.name
    && (again.Ok? <==> IsAcceptedAgain(strategies[i], PolicyFields(doc.entries[i].body), base, DefaultName(doc)))
    && (again.Ok? ==> IsTrimmedAfter(strategies[i], definitions[i], c, again.value))
    && (again.Ok? && IsAfter(strategies[i], definitions[i], c, again.value) <==>
          IsClean(strategies[i], PolicyFields(doc.entries[i].body), base, DefaultName(doc)))
  }

  /** The selection of a migrated matrix can be read off what it became. */
  lemma AfterHasSelection(from: Legacy, before: Definition, c: Catalog, selected: seq<string>, after: Definition)
    requires from.definition.kind == MATRIX_KIND && from.definition.policy.policy.labels != []
    requires IsReferenced(from.definition.name, from.definition.policy.policy, c, from.raw, selected)
    requires after == TrimmedMigration(from.definition, selected)
    ensures IsTrimmedAfter(from, before, c, after)
    ensures IsAfter(from, before, c, after) <==> after == MigratedDefinition(from.definition, selected)
  {
    if IsAfter(from, before, c, after) {
      var other :| IsReferenced(from.definition.name, from.definition.policy.policy, c, from.raw, other)
                   && after == MigratedDefinition(from.definition, other);
      assert after.policy.policy.selectedModels == Some(other) == Some(selected);
    }
  }

  lemma MigratedEntry(
      doc: Document, base: Option<Text>, top: map<string, Json>, strategies: seq<Legacy>, c: Catalog, w: Workflow, i: nat)
    requires Reprint.IsBaseline(base, top) && ParseStrategies(doc, base).Ok? && ProperIds(c.profiles)
    requires AreEffective(strategies, ParseStrategies(doc, base).value.definitions)
    requires i < |strategies| && IsMigrated(strategies[i], c, w)
    ensures IsEntryOf(doc, base, strategies, c, Entry(w.name, Installed(w)), i)
  {
    DocumentEntries(doc, base);
    ReferencedOk(doc.entries[i], base, top, DefaultName(doc), strategies[i], c, w.selected);
    WorkflowReadsBackIff(doc.entries[i], base, top, DefaultName(doc), strategies[i], c, w);
    var again := ParseDefinition(Entry(w.name, Installed(w)), base, DefaultName(doc));
    if again.Ok? {
      AfterHasSelection(strategies[i], ParseStrategies(doc, base).value.definitions[i], c, w.selected, again.value);
    }
  }

  lemma KeptIs(from: Legacy, before: Definition, c: Catalog, again: Result<Definition, Refused>, clean: bool)
    requires from.definition.kind != MATRIX_KIND && (again.Ok? ==> again == Ok(TrimmedDefinition(before)))
    requires again == Ok(NormalDefinition(before)) <==> clean
    ensures again.Ok? ==> IsTrimmedAfter(from, before, c, again.value)
    ensures again.Ok? && IsAfter(from, before, c, again.value) <==> clean
  {
  }

  lemma KeptEntry(doc: Document, base: Option<Text>, top: map<string, Json>, strategies: seq<Legacy>, c: Catalog, i: nat)
    requires Reprint.IsBaseline(base, top) && ParseStrategies(doc, base).Ok?
    requires AreEffective(strategies, ParseStrategies(doc, base).value.definitions)
    requires i < |strategies| && strategies[i].definition.kind != MATRIX_KIND
    ensures var before := ParseStrategies(doc, base).value.definitions[i];
      IsEntryOf(doc, base, strategies, c, Entry(before.name, PrintBody(before)), i)
  {
    var before := ParseStrategies(doc, base).value.definitions[i];
    UntouchedParsesIff(doc, base, top, i);
    KeptIs(strategies[i], before, c, ParseDefinition(Entry(before.name, PrintBody(before)), base, DefaultName(doc)),
           Reprint.NothingLost(PolicyFields(doc.entries[i].body), base, DefaultName(doc)));
  }

  lemma MatrixHasWorkflow(strategies: seq<Legacy>, c: Catalog, o: Overlay, i: nat) returns (j: nat)
    requires IsMigration(strategies, c, o.tunings, o) && i < |strategies| && strategies[i].definition.kind == MATRIX_KIND
    ensures j < |o.workflows| && o.workflows[j].name == strategies[i].definition.name
  {
    MatrixNamesOf(strategies);
    var name := strategies[i].definition.name;
    assert HasMatrix(strategies, name);
    j :| 0 <= j < |MatrixNames(strategies)| && MatrixNames(strategies)[j] == name;
  }

  lemma NotAMatrix(strategies: seq<Legacy>, c: Catalog, o: Overlay, i: nat)
    requires IsMigration(strategies, c, o.tunings, o) && i < |strategies| && Untouched(o, strategies[i].definition.name)
    ensures strategies[i].definition.kind != MATRIX_KIND
  {
    if strategies[i].definition.kind == MATRIX_KIND {
      var j := MatrixHasWorkflow(strategies, c, o, i);
    }
  }

  /** Every entry of the merged document is for one strategy. */
  lemma EntryOf(
      doc: Document, base: Option<Text>, top: map<string, Json>, strategies: seq<Legacy>, c: Catalog,
      o: Overlay, entries: seq<Entry>, k: nat) returns (i: nat)
    requires IsWhole(doc, base, top, strategies, c, o, entries) && k < |entries|
    ensures IsEntryOf(doc, base, strategies, c, entries[k], i)
  {
    var definitions := ParseStrategies(doc, base).value.definitions;
    var j, l := EntryIs(definitions, o, entries, k);
    if j < |o.workflows| && entries[k] == Entry(o.workflows[j].name, Installed(o.workflows[j])) {
      i :| 0 <= i < |strategies| && IsMigrated(strategies[i], c, o.workflows[j]);
      MigratedEntry(doc, base, top, strategies, c, o.workflows[j], i);
    } else {
      i := l;
      NotAMatrix(strategies, c, o, i);
      KeptEntry(doc, base, top, strategies, c, i);
    }
  }

  lemma OnlyOne(strategies: seq<Legacy>, definitions: seq<Definition>, i: nat)
    requires AreEffective(strategies, definitions) && OncePerStrategy(strategies) && i < |definitions|
    ensures IsLast(definitions, i)
  {
    forall j | i < j < |definitions| ensures definitions[j].name != definitions[i].name {
      assert strategies[i].definition.name != strategies[j].definition.name;
    }
  }

  /** Each strategy of the catalog is still there. */
  lemma EveryStrategyStays(definitions: seq<Definition>, strategies: seq<Legacy>, c: Catalog, o: Overlay, entries: seq<Entry>, i: nat)
    returns (k: nat)
    requires OncePerStrategy(strategies) && AreEffective(strategies, definitions)
    requires IsMigration(strategies, c, o.tunings, o) && IsMerge(definitions, o, entries) && i < |strategies|
    ensures k < |entries| && entries[k].name == strategies[i].definition.name
  {
    var name := strategies[i].definition.name;
    if Untouched(o, name) {
      OnlyOne(strategies, definitions, i);
      PrintedBody(definitions, i);
    }
    k := LookupFindsAnEntry(entries, name);
  }

  lemma SameStrategy(strategies: seq<Legacy>, i: nat, j: nat)
    requires OncePerStrategy(strategies) && i < |strategies| && j < |strategies|
    requires strategies[i].definition.name == strategies[j].definition.name
    ensures i == j
  {
  }

  /** Strategy i has an entry, and that entry is what becomes of it. */
  lemma StrategyHasEntry(
      doc: Document, base: Option<Text>, top: map<string, Json>, strategies: seq<Legacy>, c: Catalog,
      o: Overlay, entries: seq<Entry>, i: nat) returns (k: nat)
    requires IsWhole(doc, base, top, strategies, c, o, entries) && i < |strategies|
    ensures k < |entries| && IsEntryOf(doc, base, strategies, c, entries[k], i)
  {
    k := EveryStrategyStays(ParseStrategies(doc, base).value.definitions, strategies, c, o, entries, i);
    var j := EntryOf(doc, base, top, strategies, c, o, entries, k);
    SameStrategy(strategies, i, j);
  }

  /** Every strategy of the catalog relies on nothing that is refused after the migration. */
  ghost predicate AllAcceptedAgain(doc: Document, base: Option<Text>, strategies: seq<Legacy>)
    requires |strategies| == |doc.entries|
  {
    forall i :: 0 <= i < |strategies| ==> IsAcceptedAgain(strategies[i], PolicyFields(doc.entries[i].body), base, DefaultName(doc))
  }

  lemma SameLength(doc: Document, base: Option<Text>, top: map<string, Json>, strategies: seq<Legacy>, c: Catalog, o: Overlay, entries: seq<Entry>)
    requires IsWhole(doc, base, top, strategies, c, o, entries)
    ensures |strategies| == |doc.entries| == |ParseStrategies(doc, base).value.definitions| && strategies != []
  {
    DocumentEntries(doc, base);
  }

  /**
   A migrated catalog reloads if and only if no strategy relies on something that is refused
   afterwards: for a matrix an inherited label with an explicitly empty pool or a malformed default
   tag, for any other strategy an empty id as well. One such strategy keeps all of them out.
   */
  lemma MigratedAcceptedIff(
      doc: Document, base: Option<Text>, top: map<string, Json>, strategies: seq<Legacy>, c: Catalog,
      o: Overlay, entries: seq<Entry>)
    requires IsWhole(doc, base, top, strategies, c, o, entries)
    ensures |strategies| == |doc.entries|
    ensures ParseStrategies(Wrapped(Some(DefaultName(doc)), entries), base).Ok? <==> AllAcceptedAgain(doc, base, strategies)
  {
    SameLength(doc, base, top, strategies, c, o, entries);
    WrappedParsesIff(doc, base, entries);
    var first := StrategyHasEntry(doc, base, top, strategies, c, o, entries, 0);
    if AllAcceptedAgain(doc, base, strategies) {
      forall k | 0 <= k < |entries| ensures ParseDefinition(entries[k], base, DefaultName(doc)).Ok? {
        var i := EntryOf(doc, base, top, strategies, c, o, entries, k);
      }
    }
    if forall k :: 0 <= k < |entries| ==> ParseDefinition(entries[k], base, DefaultName(doc)).Ok? {
      forall i | 0 <= i < |strategies|
        ensures IsAcceptedAgain(strategies[i], PolicyFields(doc.entries[i].body), base, DefaultName(doc))
      {
        var k := StrategyHasEntry(doc, base, top, strategies, c, o, entries, i);
      }
    }
  }

  /** A strategy of the reloaded catalog is what becomes of strategy i of the old one, as it was meant exactly when it was clean. */
  ghost predicate ComesFrom(doc: Document, base: Option<Text>, strategies: seq<Legacy>, c: Catalog, name: string, after: Definition)
    requires ParseStrategies(doc, base).Ok? && |strategies| == |doc.entries| == |ParseStrategies(doc, base).value.definitions|
  {
    var definitions := ParseStrategies(doc, base).value.definitions;
    exists i :: 0 <= i < |strategies| && strategies[i].definition.name == name
                && IsTrimmedAfter(strategies[i], definitions[i], c, after)
                && (IsAfter(strategies[i], definitions[i], c, after) <==>
                      IsClean(strategies[i], PolicyFields(doc.entries[i].body), base, DefaultName(doc)))
  }

  /**
   When it reloads, it has the same default, and its strategies are the migrated matrices and the
   others as they were, but for the space around inherited tags; every one comes from one of the
   old ones.
   */
  lemma MigratedCatalogReloads(
      doc: Document, base: Option<Text>, top: map<string, Json>, strategies: seq<Legacy>, c: Catalog,
      o: Overlay, entries: seq<Entry>)
    requires IsWhole(doc, base, top, strategies, c, o, entries)
    ensures |strategies| == |doc.entries| == |ParseStrategies(doc, base).value.definitions|
    ensures var after := ParseStrategies(Wrapped(Some(DefaultName(doc)), entries), base);
      after.Ok? ==>
        && after.value.defaultStrategy == DefaultName(doc) && |after.value.definitions| == |entries|
        && forall k :: 0 <= k < |entries| ==> ComesFrom(doc, base, strategies, c, entries[k].name, after.value.definitions[k])
  {
    SameLength(doc, base, top, strategies, c, o, entries);
    WrappedParsesIff(doc, base, entries);
    var after := ParseStrategies(Wrapped(Some(DefaultName(doc)), entries), base);
    if after.Ok? {
      forall k | 0 <= k < |entries| ensures ComesFrom(doc, base, strategies, c, entries[k].name, after.value.definitions[k]) {
        var i := EntryOf(doc, base, top, strategies, c, o, entries, k);
      }
    }
  }

  // The strategies select as before

  /** A policy as it is followed, with its thresholds read as numbers. */
  function Followed(p: Policy<Json>, number: Json -> real): Policy<real> {
    Policy(
      p.mode, p.selection, p.labels,
      Escalation(number(p.escalation.maxFailures), number(p.escalation.maxTruncations)),
      Hysteresis(number(p.hysteresis.minTurns), number(p.hysteresis.cooldown), number(p.hysteresis.maxSwitches)),
      p.breakOn,
      Budget(if p.budget.maxCost.Some? then Some(number(p.budget.maxCost.value)) else None, number(p.budget.pressureRatio)),
      p.selectedModels)
  }

  function Running(d: Definition, number: Json -> real, round: real -> real): Selection.Strategy {
    Selection.Strategy(d.name, Followed(d.policy.policy, number), round)
  }

  /** The pool of a label that can be asked for, and every model chosen from such a pool, survive the migration. */
  lemma MatrixSelectsAsBefore(
      from: Legacy, before: Definition, c: Catalog, after: Definition, number: Json -> real, round: real -> real, q: Selection.Query)
    requires from.definition.kind == MATRIX_KIND && IsAfter(from, before, c, after)
    requires Covered(from.definition.policy.policy, from.raw, q.tier)
    ensures var s, t := Running(from.definition, number, round), Running(after, number, round);
      && HasLabel(s.policy.labels, q.tier) && HasLabel(t.policy.labels, q.tier)
      && TierPool(t.name, t.policy, c, q.tier) == TierPool(s.name, s.policy, c, q.tier)
      && (Selection.Select(s, c, q).Ok? && Selection.Select(s, c, q).value.source.LabelPool? ==>
            Selection.Select(t, c, q) == Selection.Select(s, c, q))
      && (TierPool(s.name, s.policy, c, q.tier) == [] ==>
            (Selection.Select(t, c, q) == Selection.Select(s, c, q)
             <==> Selection.DefaultModel(s, c).Err? || DefaultIsReferred(s, c, from.raw)))
  {
    var p := from.definition.policy.policy;
    var selected :| IsReferenced(from.definition.name, p, c, from.raw, selected) && after == MigratedDefinition(from.definition, selected);
    var s, t := Running(from.definition, number, round), Running(after, number, round);
    var m := After(s, selected);
    assert t == m.(policy := NormalPolicy(m.policy));
    PoolKept(s.name, s.policy, c, from.raw, selected, q.tier);
    Reprint.NormalPool(m.name, m.policy, c, q.tier);
    Reprint.ReprintedSelectsTheSame(m, c, q);
    if Selection.Select(s, c, q).Ok? && Selection.Select(s, c, q).value.source.LabelPool? {
      LabelSelectionKept(s, c, from.raw, selected, q);
    }
    if TierPool(s.name, s.policy, c, q.tier) == [] {
      EmptyPoolKeptIff(s, c, from.raw, selected, q);
    }
  }

  /** Any other strategy selects as before for every request. */
  lemma OtherSelectsAsBefore(before: Definition, c: Catalog, number: Json -> real, round: real -> real, q: Selection.Query)
    requires HasLabel(before.policy.policy.labels, q.tier) || q.tier == "default"
    ensures var s, t := Running(before, number, round), Running(NormalDefinition(before), number, round);
      && (HasLabel(t.policy.labels, q.tier) || q.tier == "default")
      && Selection.Select(t, c, q) == Selection.Select(s, c, q)
  {
    var s := Running(before, number, round);
    assert Running(NormalDefinition(before), number, round) == s.(policy := NormalPolicy(s.policy));
    Reprint.ReprintedSelectsTheSame(s, c, q);
  }
}
