/** The version 2 overlay a migration writes, and what it means once merged and parsed. */
module Workflows {
  import opened Wrappers
  import opened Catalogs
  import opened PolicyText
  import opened Overlay
  import opened Migration
  import Reprint

  function MigratedText(t: Text, selected: seq<string>): Text {
    Text(Migrated(t.policy, selected), map[], t.reasoning)
  }

  // Editing printed pools

  /** A printed label whose model list, if it has one, is cut to the selection. */
  function EditEntry(f: Field, selected: seq<string>): Field {
    if f.value.JObject? && "models" in f.value.fields && Strings(f.value.fields["models"]).Some?
    then f.(value := JObject(f.value.fields["models" := JArray(Texts(Filter(Strings(f.value.fields["models"]).value, selected)))]))
    else f
  }

  function PrintLabel(l: Label): Field {
    Field(l.name, JObject(PrintRoute(l.route)))
  }

  lemma {:induction false} PrintedLabelAt(labels: seq<Label>, i: nat)
    requires i < |labels|
    ensures |PrintLabels(labels)| == |labels| && PrintLabels(labels)[i] == PrintLabel(labels[i])
  {
    PrintedLength(labels);
    if i > 0 {
      PrintedLabelAt(labels[1..], i - 1);
    }
  }

  lemma EditedRoute(r: Route, selected: seq<string>)
    requires r.models != [] || r.explicitModels
    ensures PrintRoute(FilterRoute(r, selected)) == PrintRoute(r)["models" := JArray(Texts(Filter(r.models, selected)))]
  {
  }

  /** Editing a printed label is printing the edited one. */
  lemma EditedLabel(l: Label, selected: seq<string>)
    ensures EditEntry(PrintLabel(l), selected) == PrintLabel(Label(l.name, FilterRoute(l.route, selected)))
  {
    PrintedRoute(l.route);
    StringsOfTexts(l.route.models);
    if l.route.models != [] || l.route.explicitModels {
      EditedRoute(l.route, selected);
    }
  }

  method EditPools(entries: seq<Field>, ghost labels: seq<Label>, selected: seq<string>) returns (edited: seq<Field>)
    requires entries == PrintLabels(labels)
    ensures edited == PrintLabels(FilterLabels(labels, selected))
  {
    PrintedLength(labels);
    PrintedLength(FilterLabels(labels, selected));
    edited := [];
    var i := 0;
    while i < |entries|
      invariant 0 <= i <= |entries| && |edited| == i
      invariant forall j :: 0 <= j < i ==> edited[j] == PrintLabels(FilterLabels(labels, selected))[j]
    {
      PrintedLabelAt(labels, i);
      PrintedLabelAt(FilterLabels(labels, selected), i);
      EditedLabel(labels[i], selected);
      edited := edited + [EditEntry(entries[i], selected)];
      i := i + 1;
    }
  }

  // One strategy

  /** What a legacy strategy turns into: its printed definition with edited pools, and the selection beside it. */
  method MigrateDefinition(d: Definition, c: Catalog, raw: RawOptions) returns (w: Workflow)
    requires d.policy.policy.labels != []
    ensures w.name == d.name && IsReferenced(d.name, d.policy.policy, c, raw, w.selected)
    ensures w.definition.(policy := JNull) == PrintBody(d).(policy := JNull)
    ensures Installed(w).policy.JObject? && IsPrinted(Installed(w).policy.fields, MigratedText(d.policy, w.selected))
    ensures LabelEntries(w.definition) == PrintLabels(FilterLabels(d.policy.policy.labels, w.selected))
  {
    var selected := ReferencedModels(d.name, d.policy.policy, c, raw);
    var printed := Print(d.policy);
    PrintHasKeys(d.policy);
    PrintHasValues(d.policy);
    PrintHasSections(d.policy);
    var edited := EditPools(printed["labels"].entries, d.policy.policy.labels, selected);
    var fields := (printed - {"selected_models"})["labels" := JOrdered(edited)];
    w := Workflow(d.name, PrintBody(d).(policy := JObject(fields)), selected);
    InstalledIsPrinted(printed, fields, edited, d.policy, selected);
  }

  lemma InstalledIsPrinted(printed: map<string, Json>, fields: map<string, Json>, edited: seq<Field>, t: Text, selected: seq<string>)
    requires IsPrinted(printed, t) && edited == PrintLabels(FilterLabels(t.policy.labels, selected))
    requires fields == (printed - {"selected_models"})["labels" := JOrdered(edited)]
    ensures "labels" in fields && fields["labels"] == JOrdered(edited)
    ensures IsPrinted(fields["selected_models" := JArray(Texts(selected))], MigratedText(t, selected))
  {
    var whole := fields["selected_models" := JArray(Texts(selected))];
    KeptKeys(printed, whole, JOrdered(edited), JArray(Texts(selected)));
    KeysKept(printed, whole, t, selected);
    ValuesKept(printed, whole, t, selected);
    SectionsKept(printed, whole, t, selected);
  }

  /** Nothing but the labels and the selection differs. */
  lemma KeptKeys(printed: map<string, Json>, whole: map<string, Json>, labels: Json, selection: Json)
    requires "labels" in printed
    requires whole == (printed - {"selected_models"})["labels" := labels]["selected_models" := selection]
    ensures Differs(printed, whole)
    ensures whole["labels"] == labels && whole["selected_models"] == selection
  {
    assert |"labels"| == 6 && |"selected_models"| == 15 && |"tier_models"| == 11;
  }

  ghost predicate Differs(printed: map<string, Json>, whole: map<string, Json>) {
    && whole.Keys == printed.Keys + {"selected_models"} && "labels" in printed
    && ("tier_models" in whole <==> "tier_models" in printed)
    && forall key :: key in printed && key != "labels" && key != "selected_models" ==> whole[key] == printed[key]
  }

  lemma KeysKept(printed: map<string, Json>, whole: map<string, Json>, t: Text, selected: seq<string>)
    requires PrintedKeys(printed, t) && Differs(printed, whole)
    requires whole["selected_models"] == JArray(Texts(selected))
    ensures PrintedKeys(whole, MigratedText(t, selected))
  {
    assert "selected_models" in POLICY_KEYS;
  }

  lemma ValuesKept(printed: map<string, Json>, whole: map<string, Json>, t: Text, selected: seq<string>)
    requires PrintedValues(printed, t) && Differs(printed, whole)
    requires whole["labels"] == JOrdered(PrintLabels(FilterLabels(t.policy.labels, selected)))
    ensures PrintedValues(whole, MigratedText(t, selected))
  {
    assert |"labels"| == 6 && |"selected_models"| == 15 && |"mode"| == 4 && |"selection"| == 9 && |"reasoning"| == 9;
  }

  lemma SectionsKept(printed: map<string, Json>, whole: map<string, Json>, t: Text, selected: seq<string>)
    requires PrintedSections(printed, t) && Differs(printed, whole)
    ensures PrintedSections(whole, MigratedText(t, selected))
  {
    assert |"labels"| == 6 && |"selected_models"| == 15;
    assert |"escalation"| == 10 && |"hysteresis"| == 10 && |"pin"| == 3 && |"budget"| == 6;
    assert "budget"[0] == 'b' && "labels"[0] == 'l';
  }

  // What the migrated document parses to

  /** No label is inherited with an explicitly empty pool, or without a pool and with a malformed default tag. */
  predicate InheritsCleanly(data: map<string, Json>, base: Option<Text>, strategy: string) {
    "labels" !in data && "tier_models" !in data && base.Some? ==>
      forall i :: 0 <= i < |base.value.policy.labels| ==> CleanlyInherited(strategy, base.value.policy.labels[i])
  }

  predicate CleanlyInherited(strategy: string, l: Label) {
    l.route.models == [] && l.route.tag.None? ==>
      !l.route.explicitModels && TagOk(strategy + "/" + l.name) && Strip(strategy + "/" + l.name) == strategy + "/" + l.name
  }

  lemma FilteredPrintable(labels: seq<Label>, selected: seq<string>, ok: seq<bool>)
    requires "" !in selected && |ok| == |labels|
    requires forall i :: 0 <= i < |labels| ==> (LabelPrintable(Label(labels[i].name, FilterRoute(labels[i].route, selected)), true) <==> ok[i])
    ensures AllPrintable(FilterLabels(labels, selected), true) <==> forall i :: 0 <= i < |labels| ==> ok[i]
  {
    var filtered := FilterLabels(labels, selected);
    if AllPrintable(filtered, true) {
      forall i | 0 <= i < |labels| ensures ok[i] {
        assert LabelPrintable(filtered[i], true);
      }
    }
  }

  lemma PrintableStaysPrintable(labels: seq<Label>, selected: seq<string>, allowEmpty: bool)
    requires "" !in selected && AllPrintable(labels, allowEmpty)
    ensures AllPrintable(FilterLabels(labels, selected), true)
  {
    forall i | 0 <= i < |labels| ensures LabelPrintable(FilterLabels(labels, selected)[i], true) {
      assert LabelPrintable(labels[i], allowEmpty);
    }
  }

  lemma LegacyStaysPrintable(tiers: map<string, seq<string>>, selected: seq<string>)
    requires "" !in selected && LegacyLabels(tiers).Ok?
    ensures AllPrintable(FilterLabels(LegacyLabels(tiers).value, selected), true)
  {
    Reprint.NamesOfTiers();
  }

  lemma InheritedPrintableIff(strategy: string, labels: seq<Label>, selected: seq<string>)
    requires "" !in selected && forall i :: 0 <= i < |labels| ==> Reprint.BaseLabelOk(labels[i])
    ensures AllPrintable(FilterLabels(InheritLabels(strategy, labels), selected), true) <==>
            forall i :: 0 <= i < |labels| ==> CleanlyInherited(strategy, labels[i])
  {
    var inherited := InheritLabels(strategy, labels);
    var ok := seq(|labels|, i requires 0 <= i < |labels| => CleanlyInherited(strategy, labels[i]));
    forall i | 0 <= i < |labels|
      ensures LabelPrintable(Label(inherited[i].name, FilterRoute(inherited[i].route, selected)), true) <==> ok[i]
    {
      assert Reprint.BaseLabelOk(labels[i]);
    }
    FilteredPrintable(inherited, selected, ok);
    assert (forall i :: 0 <= i < |labels| ==> ok[i]) <==> forall i :: 0 <= i < |labels| ==> CleanlyInherited(strategy, labels[i]) by {
      forall i | 0 <= i < |labels| ensures ok[i] == CleanlyInherited(strategy, labels[i]) {}
    }
  }

  lemma MigratedLabelsIff(data: map<string, Json>, base: Option<Text>, top: map<string, Json>, strategy: string, selected: seq<string>)
    requires Reprint.IsBaseline(base, top) && ParsePolicy(data, base, strategy).Ok? && "" !in selected
    ensures var p := ParsePolicy(data, base, strategy).value.policy;
      p.labels != [] && (AllPrintable(FilterLabels(p.labels, selected), true) <==> InheritsCleanly(data, base, strategy))
  {
    if base.Some? { Reprint.TopLevelLabels(top, "task_aware"); }
    Reprint.ParsedParts(data, base, strategy);
    Reprint.LabelsPrintableIff(data, base, strategy);
    var p := ParsePolicy(data, base, strategy).value.policy;
    if "labels" in data {
      PrintableStaysPrintable(p.labels, selected, p.selectedModels.Some?);
    } else if "tier_models" in data {
      LegacyStaysPrintable(ParseTierModels(data["tier_models"], if base.Some? then base.value.tierModels else map[]).value, selected);
    } else if base.Some? {
      InheritedPrintableIff(strategy, base.value.policy.labels, selected);
    }
  }

  lemma FilteredNames(labels: seq<Label>, selected: seq<string>)
    ensures LabelNames(FilterLabels(labels, selected)) == LabelNames(labels)
  {
    var filtered := FilterLabels(labels, selected);
    forall name ensures name in LabelNames(filtered) <==> name in LabelNames(labels) {
      if name in LabelNames(labels) {
        var i :| 0 <= i < |labels| && labels[i].name == name;
        assert filtered[i].name == name;
      }
    }
  }

  /**
   The document a migration writes for a strategy, merged and parsed, is the migrated policy if
   and only if the strategy inherits no label that printing would spoil.
   */
  lemma MigrationReadsBackIff(
      data: map<string, Json>, base: Option<Text>, top: map<string, Json>, strategy: string,
      selected: seq<string>, fields: map<string, Json>)
    requires Reprint.IsBaseline(base, top) && ParsePolicy(data, base, strategy).Ok? && SelectedOk(selected)
    requires IsPrinted(fields, MigratedText(ParsePolicy(data, base, strategy).value, selected))
    ensures var m := MigratedText(ParsePolicy(data, base, strategy).value, selected);
      ParsePolicy(fields, base, strategy) == Ok(Normal(m)) <==> InheritsCleanly(data, base, strategy)
  {
    var t := ParsePolicy(data, base, strategy).value;
    if base.Some? { Reprint.ParsedIsSound(top, None, "task_aware"); }
    Reprint.ParsedIsSound(data, base, strategy);
    Reprint.ParsedParts(data, base, strategy);
    Reprint.DefaultsAreSound();
    Reprint.ParsedReasoning(data, Defaults(base).reasoning);
    FilteredNames(t.policy.labels, selected);
    assert Blank("");
    MigratedLabelsIff(data, base, top, strategy, selected);
    PrintedPolicyIff(fields, MigratedText(t, selected), base, strategy);
  }

  // The whole overlay

  const MATRIX_KIND := "decision_matrix"

  datatype Legacy = Legacy(definition: Definition, raw: RawOptions)

  function MatrixNames(strategies: seq<Legacy>): seq<string> {
    if strategies == [] then []
    else
      var last := strategies[|strategies| - 1].definition;
      MatrixNames(strategies[..|strategies| - 1]) + (if last.kind == MATRIX_KIND then [last.name] else [])
  }

  /** One workflow per matrix strategy, in catalog order; every pool lies within its selection. */
  method MigrateOverlay(strategies: seq<Legacy>, c: Catalog, tunings: seq<Tuning>) returns (o: Overlay)
    requires forall i :: 0 <= i < |strategies| ==> strategies[i].definition.policy.policy.labels != []
    ensures IsMigration(strategies, c, tunings, o)
  {
    var workflows: seq<Workflow> := [];
    var i := 0;
    while i < |strategies|
      invariant 0 <= i <= |strategies|
      invariant |workflows| == |MatrixNames(strategies[..i])|
      invariant forall j :: 0 <= j < |workflows| ==>
        && workflows[j].name == MatrixNames(strategies[..i])[j]
        && FromOneOf(strategies, c, workflows[j])
    {
      assert strategies[..i + 1][..i] == strategies[..i];
      if strategies[i].definition.kind == MATRIX_KIND {
        var w := MigrateDefinition(strategies[i].definition, c, strategies[i].raw);
        assert IsMigrated(strategies[i], c, w);
        assert FromOneOf(strategies, c, w);
        workflows := workflows + [w];
      }
      i := i + 1;
    }
    assert strategies[..|strategies|] == strategies;
    return Overlay(workflows, [], tunings);
  }

  /** One workflow per matrix strategy; the model changes stay. */
  ghost predicate IsMigration(strategies: seq<Legacy>, c: Catalog, tunings: seq<Tuning>, o: Overlay) {
    && o.deleted == [] && o.tunings == tunings && |o.workflows| == |MatrixNames(strategies)|
    && forall j :: 0 <= j < |o.workflows| ==>
      o.workflows[j].name == MatrixNames(strategies)[j] && FromOneOf(strategies, c, o.workflows[j])
  }

  ghost predicate FromOneOf(strategies: seq<Legacy>, c: Catalog, w: Workflow) {
    exists i :: 0 <= i < |strategies| && IsMigrated(strategies[i], c, w)
  }

  ghost predicate IsMigrated(from: Legacy, c: Catalog, w: Workflow) {
    var d := from.definition;
    && d.kind == MATRIX_KIND && w.name == d.name && d.policy.policy.labels != []
    && IsReferenced(d.name, d.policy.policy, c, from.raw, w.selected)
    && w.definition.(policy := JNull) == PrintBody(d).(policy := JNull)
    && Installed(w).policy.JObject? && IsPrinted(Installed(w).policy.fields, MigratedText(d.policy, w.selected))
    && LabelEntries(w.definition) == PrintLabels(FilterLabels(d.policy.policy.labels, w.selected))
  }

  /** A migrated workflow never fails the merge's check of its pools. */
  lemma MigratedPoolsWithin(from: Legacy, c: Catalog, w: Workflow)
    requires IsMigrated(from, c, w)
    ensures PoolsWithin(LabelEntries(w.definition), w.selected)
  {
    var labels := FilterLabels(from.definition.policy.policy.labels, w.selected);
    forall i, m | 0 <= i < |PrintLabels(labels)| && m in PoolOf(PrintLabels(labels)[i]) ensures m in w.selected {
      PrintedLength(labels);
      PrintedLabelAt(labels, i);
      PrintedRoute(labels[i].route);
      StringsOfTexts(labels[i].route.models);
    }
  }
}
