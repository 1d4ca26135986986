/** Accepted documents that are refused, or changed, once they are printed and parsed again: one for each way to lose something. */
module LostInPrint {
  import opened Wrappers
  import opened Catalogs
  import opened PolicyText
  import opened Reprint
  import Overlay
  import Reparse
  import MigrationRuns
  import Workflows

  /** A strategy that says nothing inherits everything, its labels scoped to the default strategy. */
  lemma EmptyDocumentInherits(base: Text, strategy: string)
    requires base.reasoning.byLabel == map[]
    ensures ParsePolicy(map[], Some(base), strategy) ==
            Ok(Text(base.policy.(labels := InheritLabels(strategy, base.policy.labels)), base.tierModels, base.reasoning))
  {
  }

  /** A baseline with one label; printing it is the document it is parsed from. */
  function Baseline(l: Label, selected: Option<seq<string>>): Text {
    Text(
      Policy(Sticky, "balanced", [l], Escalation(JNumber(2.0), JNumber(2.0)), Hysteresis(JNumber(2.0), JNumber(45.0), JNumber(8.0)),
             [], Budget(None, JNumber(0.75)), selected),
      map[], NO_REASONING)
  }

  lemma BaselineIsPrintable(l: Label, selected: Option<seq<string>>)
    requires LabelPrintable(l, selected.Some?) && l.route.models == [] && (selected.Some? ==> SelectedOk(selected.value))
    ensures Printable(Baseline(l, selected), None) && Normal(Baseline(l, selected)) == Baseline(l, selected)
  {
    var t := Baseline(l, selected);
    assert NormalLabels([l]) == [l];
    assert NO_REASONING.mode in REASONING_MODES && NO_REASONING.fallback in EFFORT_LADDER;
    assert NO_REASONING.byTier.Keys == TIERS;
  }

  /** It is accepted, and a strategy that inherits from it is. */
  lemma BaselineIsAccepted(l: Label, selected: Option<seq<string>>, strategy: string)
    requires LabelPrintable(l, selected.Some?) && l.route.models == [] && (selected.Some? ==> SelectedOk(selected.value))
    ensures IsBaseline(Some(Baseline(l, selected)), Print(Baseline(l, selected)))
    ensures ParsePolicy(map[], Some(Baseline(l, selected)), strategy).Ok?
  {
    var t := Baseline(l, selected);
    BaselineIsPrintable(l, selected);
    RoundTripIff(t, None, "task_aware");
    EmptyDocumentInherits(t, strategy);
  }

  lemma InheritsOneLabel(base: Text, l: Label, strategy: string)
    requires base.policy.labels == [l]
    ensures Reparse.StillParses(map[], Some(base), strategy) <==> Reparse.StillInherits(strategy, l)
    ensures NothingLost(map[], Some(base), strategy) <==> SurvivesInheritance(strategy, l)
  {
    assert base.policy.labels[0] == l;
  }

  /** What such a strategy inherits, printed, is refused. */
  lemma InheritanceIsRefused(l: Label, selected: Option<seq<string>>, strategy: string)
    requires LabelPrintable(l, selected.Some?) && l.route.models == [] && (selected.Some? ==> SelectedOk(selected.value))
    requires !Reparse.StillInherits(strategy, l)
    ensures var base := Some(Baseline(l, selected)); var p := ParsePolicy(map[], base, strategy);
      && IsBaseline(base, Print(base.value)) && p.Ok?
      && !Reparse.StillParses(map[], base, strategy) && ParsePolicy(Print(p.value), base, strategy).Err?
  {
    var base := Some(Baseline(l, selected));
    BaselineIsAccepted(l, selected, strategy);
    InheritsOneLabel(base.value, l, strategy);
    Reparse.ReprintParsesIff(map[], base, Print(base.value), strategy);
  }

  // Explicitly empty

  const EMPTY_POOL := Label("work", Route([], true, None, "", None))

  lemma WorkIsNotBlank()
    ensures !Blank("work") && !Blank("a//b")
  {
    assert TrimLeft("work") == "work" && TrimRight("work") == "work";
    assert TrimLeft("a//b") == "a//b" && TrimRight("a//b") == "a//b";
  }

  /** A baseline with a selection and an explicitly empty label: inheriting it gives the label both a list and a tag. */
  lemma EmptyPoolIsRefused()
    ensures var base := Some(Baseline(EMPTY_POOL, Some([]))); var p := ParsePolicy(map[], base, "task_aware");
      && IsBaseline(base, Print(base.value)) && p.Ok?
      && !Reparse.StillParses(map[], base, "task_aware") && ParsePolicy(Print(p.value), base, "task_aware").Err?
  {
    WorkIsNotBlank();
    InheritanceIsRefused(EMPTY_POOL, Some([]), "task_aware");
  }

  /** A strategy that says nothing but its name. */
  function Plain(name: string): Overlay.Entry {
    Overlay.Entry(name, Overlay.Body(None, None, None, None, JObject(map[]), {}))
  }

  lemma PlainIsAccepted(policy: Result<Text, Invalid>)
    requires policy.Ok?
    ensures Overlay.ParseBody(Plain("work"), policy).Ok?
    ensures Overlay.PolicyFields(Plain("work").body) == map[]
  {
    WorkIsNotBlank();
    assert TrimLeft("auto") == "auto" && TrimRight("auto") == "auto";
  }

  const ONE_STRATEGY := Overlay.Wrapped(None, [Plain("work")])
  const NO_CHANGES := Overlay.Overlay([], [], [])

  /** A document with that strategy alone. */
  lemma OneStrategyIsAccepted(base: Option<Text>)
    requires ParsePolicy(map[], base, "task_aware").Ok?
    ensures Overlay.DefaultName(ONE_STRATEGY) == "task_aware" && Overlay.ParseStrategies(ONE_STRATEGY, base).Ok?
    ensures var definitions := Overlay.ParseStrategies(ONE_STRATEGY, base).value.definitions;
      |definitions| == 1 && Overlay.ParseDefinition(Plain("work"), base, "task_aware") == Ok(definitions[0])
      && Overlay.StaysUntouched(definitions, NO_CHANGES, 0)
  {
    PlainIsAccepted(ParsePolicy(map[], base, "task_aware"));
    var all := Overlay.Each([Plain("work")], Overlay.Parser(base, "task_aware"));
    assert all[0] == Overlay.ParseDefinition(Plain("work"), base, "task_aware");
    Overlay.Gathered(all);
    Overlay.DocumentEntries(ONE_STRATEGY, base);
  }

  /** Merged with an overlay that changes nothing. */
  lemma NoChangesMerge(definitions: seq<Overlay.Definition>)
    ensures Overlay.WellShaped(NO_CHANGES) && Overlay.IsMerge(definitions, NO_CHANGES, Overlay.PrintAll(definitions))
  {
    Overlay.PrintAllOncePerName(definitions);
  }

  /** What an overlay that changes nothing makes of that document. */
  ghost function MergedWithNothing(base: Option<Text>): Result<Overlay.Parsed, Overlay.Refused>
    requires Overlay.ParseStrategies(ONE_STRATEGY, base).Ok?
  {
    Overlay.ParseStrategies(
      Overlay.Wrapped(Some("task_aware"), Overlay.PrintAll(Overlay.ParseStrategies(ONE_STRATEGY, base).value.definitions)), base)
  }

  lemma OnePrinted(d: Overlay.Definition)
    ensures Overlay.PrintAll([d]) == [Overlay.Entry(d.name, Overlay.PrintBody(d))]
  {
    assert [d][..0] == [];
  }

  /** One strategy of its document, printed and parsed again. */
  ghost predicate EndsAs(again: Result<Overlay.Parsed, Overlay.Refused>, d: Overlay.Definition, parses: bool, same: bool) {
    && (again.Ok? <==> parses)
    && (again.Ok? ==> again.value.definitions == [Overlay.TrimmedDefinition(d)])
    && (again.Ok? ==> (again.value.definitions == [Overlay.NormalDefinition(d)] <==> same))
  }

  lemma OneEnds(
      again: Result<Overlay.Parsed, Overlay.Refused>, entry: Result<Overlay.Definition, Overlay.Refused>,
      d: Overlay.Definition, parses: bool, same: bool)
    requires (again.Ok? <==> entry.Ok?) && (again.Ok? ==> |again.value.definitions| == 1 && entry == Ok(again.value.definitions[0]))
    requires (entry.Ok? <==> parses) && (entry.Ok? ==> entry == Ok(Overlay.TrimmedDefinition(d)))
    requires entry == Ok(Overlay.NormalDefinition(d)) <==> same
    ensures EndsAs(again, d, parses, same)
  {
  }

  lemma OneParses(doc: Overlay.Document, base: Option<Text>, e: Overlay.Entry)
    requires Overlay.ParseStrategies(doc, base).Ok?
    ensures var again := Overlay.ParseStrategies(Overlay.Wrapped(Some(Overlay.DefaultName(doc)), [e]), base);
      var entry := Overlay.ParseDefinition(e, base, Overlay.DefaultName(doc));
      (again.Ok? <==> entry.Ok?) && (again.Ok? ==> |again.value.definitions| == 1 && entry == Ok(again.value.definitions[0]))
  {
    Overlay.WrappedParsesIff(doc, base, [e]);
  }

  lemma OneMerged(doc: Overlay.Document, base: Option<Text>, top: map<string, Json>, d: Overlay.Definition)
    requires IsBaseline(base, top) && Overlay.ParseStrategies(doc, base).Ok? && Overlay.ParseStrategies(doc, base).value.definitions == [d]
    requires |doc.entries| == 1
    ensures var data, strategy := Overlay.PolicyFields(doc.entries[0].body), Overlay.DefaultName(doc);
      EndsAs(Overlay.ParseStrategies(Overlay.Wrapped(Some(strategy), Overlay.PrintAll([d])), base), d,
             Reparse.StillParses(data, base, strategy), NothingLost(data, base, strategy))
  {
    var data, strategy := Overlay.PolicyFields(doc.entries[0].body), Overlay.DefaultName(doc);
    var entry := Overlay.Entry(d.name, Overlay.PrintBody(d));
    OnePrinted(d);
    OneParses(doc, base, entry);
    Overlay.UntouchedParsesIff(doc, base, top, 0);
    OneEnds(Overlay.ParseStrategies(Overlay.Wrapped(Some(strategy), [entry]), base), Overlay.ParseDefinition(entry, base, strategy), d,
            Reparse.StillParses(data, base, strategy), NothingLost(data, base, strategy));
  }

  lemma MergedWithNothingIs(base: Option<Text>, top: map<string, Json>) returns (d: Overlay.Definition)
    requires IsBaseline(base, top) && ParsePolicy(map[], base, "task_aware").Ok?
    ensures Overlay.ParseStrategies(ONE_STRATEGY, base).Ok? && Overlay.ParseStrategies(ONE_STRATEGY, base).value.definitions == [d]
    ensures EndsAs(MergedWithNothing(base), d, Reparse.StillParses(map[], base, "task_aware"), NothingLost(map[], base, "task_aware"))
  {
    OneStrategyIsAccepted(base);
    d := Overlay.ParseStrategies(ONE_STRATEGY, base).value.definitions[0];
    assert Overlay.PolicyFields(Plain("work").body) == map[];
    OneMerged(ONE_STRATEGY, base, top, d);
  }

  /** An inherited empty pool makes the whole merge be refused, although the document was accepted and nothing was to change. */
  lemma EmptyPoolRefusesMerge()
    ensures var base := Some(Baseline(EMPTY_POOL, Some([])));
      && IsBaseline(base, Print(base.value)) && Overlay.ParseStrategies(ONE_STRATEGY, base).Ok?
      && MergedWithNothing(base).Err?
  {
    var base := Some(Baseline(EMPTY_POOL, Some([])));
    EmptyPoolIsRefused();
    InheritsOneLabel(base.value, EMPTY_POOL, "task_aware");
    var d := MergedWithNothingIs(base, Print(base.value));
  }

  /** And a migration writes a document for an accepted strategy that is refused. */
  lemma MigrationIsRefused()
    ensures var base := Some(Baseline(EMPTY_POOL, Some([]))); var p := ParsePolicy(map[], base, "task_aware");
      && IsBaseline(base, Print(base.value)) && p.Ok? && !MigrationRuns.StillMigrates(map[], base, "task_aware")
      && ParsePolicy(Print(Workflows.MigratedText(p.value, [])), base, "task_aware").Err?
  {
    EmptyPoolIsRefused();
    var base := Some(Baseline(EMPTY_POOL, Some([])));
    assert base.value.policy.labels[0] == EMPTY_POOL;
    MigratedIsRefused(base, Print(base.value), "task_aware");
  }

  lemma MigratedIsRefused(base: Option<Text>, top: map<string, Json>, strategy: string)
    requires IsBaseline(base, top) && ParsePolicy(map[], base, strategy).Ok? && !MigrationRuns.StillMigrates(map[], base, strategy)
    ensures ParsePolicy(Print(Workflows.MigratedText(ParsePolicy(map[], base, strategy).value, [])), base, strategy).Err?
  {
    var m := Workflows.MigratedText(ParsePolicy(map[], base, strategy).value, []);
    PrintHasKeys(m);
    PrintHasValues(m);
    PrintHasSections(m);
    MigrationRuns.MigratedParsesIff(map[], base, top, strategy, [], Print(m));
  }

  // A malformed default tag

  const SLASHED := Label("a//b", Route([], false, None, "", None))

  lemma SlashedTagIsMalformed(strategy: string)
    ensures !TagOk(strategy + "/" + "a//b")
  {
    var tag := strategy + "/" + "a//b";
    var n := |strategy| + 2;
    assert tag[n] == '/' && tag[n + 1] == '/';
  }

  /** A label whose name has two slashes in a row: its default tag is inherited, printed and refused. */
  lemma MalformedTagIsRefused()
    ensures var base := Some(Baseline(SLASHED, None)); var p := ParsePolicy(map[], base, "task_aware");
      && IsBaseline(base, Print(base.value)) && p.Ok?
      && !Reparse.StillParses(map[], base, "task_aware") && ParsePolicy(Print(p.value), base, "task_aware").Err?
  {
    WorkIsNotBlank();
    SlashedTagIsMalformed("task_aware");
    InheritanceIsRefused(SLASHED, None, "task_aware");
  }

  // Space around a default tag

  const SPACED := Label("work ", Route([], false, None, "", None))

  lemma SpacedTag()
    ensures !Blank("work ") && Strip("task_aware/work ") == "task_aware/work"
    ensures TagOk("task_aware/work") && "task_aware" + "/" + "work " == "task_aware/work "
  {
    assert TrimLeft("work ") == "work " && "work "[..4] == "work" && TrimRight("work ") == "work";
    var tag := "task_aware/work ";
    assert TrimLeft(tag) == tag && tag[..15] == "task_aware/work" && TrimRight(tag) == "task_aware/work";
    var trimmed := "task_aware/work";
    assert forall i :: 0 <= i < |trimmed| && trimmed[i] == '/' ==> i == 10;
  }

  /** A label whose name ends in a space: its default tag is inherited with the space, and the merge takes it away unasked. */
  lemma SpacedTagSilentlyChanges() returns (d: Overlay.Definition)
    ensures var base := Some(Baseline(SPACED, None));
      && IsBaseline(base, Print(base.value)) && Overlay.ParseStrategies(ONE_STRATEGY, base).Ok?
      && Overlay.ParseStrategies(ONE_STRATEGY, base).value.definitions == [d]
      && MergedWithNothing(base).Ok? && MergedWithNothing(base).value.definitions == [Overlay.TrimmedDefinition(d)]
      && Overlay.TrimmedDefinition(d) != Overlay.NormalDefinition(d)
  {
    var base := Some(Baseline(SPACED, None));
    SpacedTag();
    BaselineIsAccepted(SPACED, None, "task_aware");
    SpacedDoesNotSurvive();
    InheritsOneLabel(base.value, SPACED, "task_aware");
    d := MergedWithNothingIs(base, Print(base.value));
  }

  lemma SpacedDoesNotSurvive()
    ensures Reparse.StillInherits("task_aware", SPACED) && !SurvivesInheritance("task_aware", SPACED)
  {
    SpacedTag();
    assert |"task_aware/work "| == 16 && |"task_aware/work"| == 15;
  }

  // An empty id in a legacy list

  const EMPTY_ID: map<string, Json> := map[
    "simple" := JArray([JString("")]), "standard" := JArray([]), "complex" := JArray([])]

  const LEGACY: map<string, Json> := map["tier_models" := JObject(EMPTY_ID)]

  lemma LegacyTiers()
    ensures var tiers := ParseTierModels(JObject(EMPTY_ID), map[]);
      tiers.Ok? && tiers.value.Keys == TIERS && "simple" in tiers.value && tiers.value["simple"] == [""]
  {
    assert [JString("")][1..] == [] && [""][1..] == [];
    StringsOfTexts([""]);
    assert Texts([""]) == [JString("")];
    assert Strings(JArray([JString("")])) == Some([""]);
    assert EMPTY_ID.Keys == TIERS;
    assert forall k :: k in EMPTY_ID ==> Strings(EMPTY_ID[k]).Some?;
  }

  /** Legacy lists are not checked for empty ids, printed labels are. */
  lemma EmptyIdIsRefused()
    ensures var p := ParsePolicy(LEGACY, None, "task_aware");
      && p.Ok? && !Reparse.StillParses(LEGACY, None, "task_aware") && ParsePolicy(Print(p.value), None, "task_aware").Err?
  {
    LegacyTiers();
    LegacyIsAccepted();
    Reparse.ReprintParsesIff(LEGACY, None, map[], "task_aware");
  }

  lemma LegacyIsAccepted()
    ensures ParsePolicy(LEGACY, None, "task_aware").Ok?
    ensures "labels" !in LEGACY && "tier_models" in LEGACY && LEGACY["tier_models"] == JObject(EMPTY_ID)
  {
    LegacyTiers();
    assert |"tier_models"| == 11;
    assert forall key :: key in LEGACY ==> key == "tier_models";
    assert "tier_models" in POLICY_KEYS;
    assert |"labels"| == 6 && |"mode"| == 4 && |"selection"| == 9 && |"selected_models"| == 15;
    assert |"escalation"| == 10 && |"hysteresis"| == 10 && |"pin"| == 3 && |"budget"| == 6 && |"reasoning"| == 9;
  }
}
