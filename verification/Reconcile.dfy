/** Removing models from the catalog: an overlay forgets them, and every remaining selection is unchanged. */
module Reconcile {
  import opened Wrappers
  import opened Catalogs
  import opened PolicyText
  import opened Overlay
  import Reprint

  function Kept(models: seq<string>, removed: set<string>): (r: seq<string>)
    ensures forall m :: m in r <==> m in models && m !in removed
  {
    if models == [] then []
    else (if models[0] in removed then [] else [models[0]]) + Kept(models[1..], removed)
  }

  // The document

  function ReconcileEntry(f: Field, removed: set<string>): Field {
    if f.value.JObject? && "models" in f.value.fields && Strings(f.value.fields["models"]).Some?
    then f.(value := JObject(f.value.fields["models" := JArray(Texts(Kept(Strings(f.value.fields["models"]).value, removed)))]))
    else f
  }

  function ReconcileEntries(entries: seq<Field>, removed: set<string>): (r: seq<Field>)
    ensures |r| == |entries| && forall i :: 0 <= i < |entries| ==> r[i] == ReconcileEntry(entries[i], removed)
  {
    seq(|entries|, i requires 0 <= i < |entries| => ReconcileEntry(entries[i], removed))
  }

  function ReconcileBody(body: Body, removed: set<string>): Body {
    if body.policy.JObject? && "labels" in body.policy.fields && body.policy.fields["labels"].JOrdered?
    then body.(policy := JObject(body.policy.fields["labels" := JOrdered(ReconcileEntries(LabelEntries(body), removed))]))
    else body
  }

  function ReconcileWorkflow(w: Workflow, removed: set<string>): Workflow {
    Workflow(w.name, ReconcileBody(w.definition, removed), Kept(w.selected, removed))
  }

  /** The changes of the remaining models. */
  function KeptTunings(tunings: seq<Tuning>, removed: set<string>): (r: seq<Tuning>)
    ensures forall t :: t in r <==> t in tunings && t.model !in removed
  {
    if tunings == [] then []
    else (if tunings[0].model in removed then [] else [tunings[0]]) + KeptTunings(tunings[1..], removed)
  }

  method ReconcileOverlay(o: Overlay, removed: set<string>) returns (r: Overlay)
    ensures IsReconciled(o, removed, r)
  {
    var workflows: seq<Workflow> := [];
    var i := 0;
    while i < |o.workflows|
      invariant 0 <= i <= |o.workflows| && |workflows| == i
      invariant forall j :: 0 <= j < i ==> workflows[j] == ReconcileWorkflow(o.workflows[j], removed)
    {
      var w := o.workflows[i];
      var entries: seq<Field> := [];
      var j := 0;
      while j < |LabelEntries(w.definition)|
        invariant 0 <= j <= |LabelEntries(w.definition)|
        invariant entries == ReconcileEntries(LabelEntries(w.definition)[..j], removed)
      {
        entries := entries + [ReconcileEntry(LabelEntries(w.definition)[j], removed)];
        j := j + 1;
      }
      assert LabelEntries(w.definition)[..|LabelEntries(w.definition)|] == LabelEntries(w.definition);
      var body := w.definition;
      if body.policy.JObject? && "labels" in body.policy.fields && body.policy.fields["labels"].JOrdered? {
        body := body.(policy := JObject(body.policy.fields["labels" := JOrdered(entries)]));
      }
      workflows := workflows + [Workflow(w.name, body, Kept(w.selected, removed))];
      i := i + 1;
    }
    return o.(workflows := workflows, tunings := KeptTunings(o.tunings, removed));
  }

  ghost predicate IsReconciled(o: Overlay, removed: set<string>, r: Overlay) {
    && r.deleted == o.deleted && r.tunings == KeptTunings(o.tunings, removed) && |r.workflows| == |o.workflows|
    && forall i :: 0 <= i < |o.workflows| ==> r.workflows[i] == ReconcileWorkflow(o.workflows[i], removed)
  }

  /** A pool after the removal is the pool before it, without the removed models. */
  lemma ReconciledPoolOf(f: Field, removed: set<string>)
    ensures PoolOf(ReconcileEntry(f, removed)) == Kept(PoolOf(f), removed)
  {
    StringsOfTexts(Kept(PoolOf(f), removed));
  }

  lemma ReconciledEntries(body: Body, removed: set<string>)
    ensures LabelEntries(ReconcileBody(body, removed)) == ReconcileEntries(LabelEntries(body), removed)
  {
  }

  /** An accepted workflow, reconciled, is accepted in the smaller catalog: nothing dangles and its pools stay within its selection. */
  lemma ReconciledIsAccepted(w: Workflow, around: Surroundings, removed: set<string>)
    requires CheckWorkflow(w, around).Ok?
    ensures CheckWorkflow(ReconcileWorkflow(w, removed), around.(models := around.models - removed)).Ok?
  {
    var v := ReconcileWorkflow(w, removed);
    var entries := LabelEntries(w.definition);
    ReconciledEntries(w.definition, removed);
    forall i, m | 0 <= i < |entries| && m in PoolOf(ReconcileEntries(entries, removed)[i]) ensures m in v.selected {
      ReconciledPoolOf(entries[i], removed);
      assert m in PoolOf(entries[i]);
    }
    assert PoolsWithin(LabelEntries(v.definition), v.selected);
  }

  lemma {:induction false} KeptTunedOnce(tunings: seq<Tuning>, removed: set<string>)
    requires TunedOnce(tunings)
    ensures TunedOnce(KeptTunings(tunings, removed))
  {
    if tunings != [] {
      KeptTunedOnce(tunings[1..], removed);
      assert forall t :: t in tunings[1..] ==> t.model != tunings[0].model;
    }
  }

  /** So an accepted overlay stays well shaped, and merges into the smaller catalog. */
  lemma ReconciledOverlayIsAccepted(bodies: seq<Entry>, defaultStrategy: string, o: Overlay, around: Surroundings, removed: set<string>, r: Overlay)
    requires WellShaped(o) && Acceptable(bodies, defaultStrategy, o, around) && IsReconciled(o, removed, r)
    ensures WellShaped(r) && Acceptable(bodies, defaultStrategy, r, around.(models := around.models - removed))
  {
    KeptTunedOnce(o.tunings, removed);
    forall i | 0 <= i < |r.workflows| ensures CheckWorkflow(r.workflows[i], around.(models := around.models - removed)).Ok? {
      ReconciledIsAccepted(o.workflows[i], around, removed);
    }
    forall i | 0 <= i < |r.tunings| ensures r.tunings[i].model in around.models - removed {
      assert r.tunings[i] in KeptTunings(o.tunings, removed);
    }
  }

  // The policy it means

  function ReconcileRoute(r: Route, removed: set<string>): Route {
    if r.models != [] || r.explicitModels then r.(models := Kept(r.models, removed), explicitModels := true) else r
  }

  function ReconcileLabels(labels: seq<Label>, removed: set<string>): (r: seq<Label>)
    ensures |r| == |labels| && forall i :: 0 <= i < |labels| ==> r[i] == Label(labels[i].name, ReconcileRoute(labels[i].route, removed))
  {
    seq(|labels|, i requires 0 <= i < |labels| => Label(labels[i].name, ReconcileRoute(labels[i].route, removed)))
  }

  function Reconciled<N>(p: Policy<N>, removed: set<string>): Policy<N> {
    p.(labels := ReconcileLabels(p.labels, removed),
       selectedModels := if p.selectedModels.Some? then Some(Kept(p.selectedModels.value, removed)) else None)
  }

  /** None of the catalog's models is removed. */
  ghost predicate NoneRemoved(profiles: seq<Profile>, removed: set<string>) {
    forall q :: q in profiles ==> q.name !in removed
  }

  lemma {:induction false} EligibleRemain<N>(p: Policy<N>, profiles: seq<Profile>, removed: set<string>)
    requires NoneRemoved(profiles, removed)
    ensures EligibleOf(Reconciled(p, removed), profiles) == EligibleOf(p, profiles)
  {
    if profiles != [] {
      assert NoneRemoved(profiles[1..], removed);
      EligibleRemain(p, profiles[1..], removed);
    }
  }

  lemma {:induction false} NamedRemain<N>(p: Policy<N>, c: Catalog, models: seq<string>, removed: set<string>)
    requires NoneRemoved(c.profiles, removed)
    ensures Named(Reconciled(p, removed), c, Kept(models, removed)) == Named(p, c, models)
  {
    if models != [] {
      NamedRemain(p, c, models[1..], removed);
      var found := ByName(c.profiles, models[0]);
      if models[0] in removed {
        assert Kept(models, removed) == Kept(models[1..], removed);
        assert found.None?;
      } else {
        assert Kept(models, removed)[1..] == Kept(models[1..], removed);
      }
    }
  }

  /** In the smaller catalog the reconciled policy draws every label from the pool the old policy would. */
  lemma ReconciledPool<N>(strategy: string, p: Policy<N>, c: Catalog, name: string, removed: set<string>)
    requires NoneRemoved(c.profiles, removed) && HasLabel(p.labels, name)
    ensures HasLabel(Reconciled(p, removed).labels, name)
    ensures TierPool(strategy, Reconciled(p, removed), c, name) == TierPool(strategy, p, c, name)
    ensures Candidates(Reconciled(p, removed), c) == Candidates(p, c)
  {
    var labels := ReconcileLabels(p.labels, removed);
    assert labels[IndexOf(p.labels, name)].name == name;
    Reprint.NormalIndex(p.labels, labels, name);
    EligibleRemain(p, c.profiles, removed);
    NamedRemain(p, c, RouteOf(p.labels, name).models, removed);
  }

  // The edited document means the reconciled policy

  lemma {:induction false} KeptDistinct(models: seq<string>, removed: set<string>)
    requires SelectedOk(models)
    ensures SelectedOk(Kept(models, removed))
  {
    if models != [] {
      assert Distinct(models[1..]) by {
        forall i, j | 0 <= i < j < |models[1..]| ensures models[1..][i] != models[1..][j] {
          assert models[i + 1] != models[j + 1];
        }
      }
      KeptDistinct(models[1..], removed);
      var rest := Kept(models[1..], removed);
      assert models[0] !in rest by {
        assert forall j :: 0 <= j < |models[1..]| ==> models[1..][j] == models[j + 1] && models[0] != models[j + 1];
      }
    }
  }

  /** A label whose list is cut parses to the label with the list cut. */
  lemma ReconciledLabel(f: Field, removed: set<string>)
    requires ParseLabel(f, true).Ok?
    ensures var l := ParseLabel(f, true).value;
      ParseLabel(ReconcileEntry(f, removed), true) == Ok(Label(l.name, ReconcileRoute(l.route, removed)))
  {
    var raw := f.value.fields;
    if "models" in raw {
      var models := Strings(raw["models"]).value;
      StringsOfTexts(Kept(models, removed));
      ReconciledRaw(raw, JArray(Texts(Kept(models, removed))));
    }
  }

  lemma ReconciledRaw(raw: map<string, Json>, models: Json)
    requires "models" in raw
    ensures var cut := raw["models" := models];
      && cut.Keys == raw.Keys && cut["models"] == models
      && ParseTag(cut) == ParseTag(raw) && ParseEffort(cut) == ParseEffort(raw)
      && ("description" in raw ==> cut["description"] == raw["description"])
  {
    assert |"models"| == 6 && |"tag"| == 3 && |"description"| == 11 && |"reasoning_effort"| == 16;
  }

  lemma {:induction false} ReconciledLabels(entries: seq<Field>, removed: set<string>)
    requires ParseLabels(entries, true).Ok?
    ensures ParseLabels(ReconcileEntries(entries, removed), true) == Ok(ReconcileLabels(ParseLabels(entries, true).value, removed))
  {
    if entries != [] {
      var n := |entries| - 1;
      ReconciledLabels(entries[..n], removed);
      ReconciledLabel(entries[n], removed);
      var rest, last := ParseLabels(entries[..n], true).value, ParseLabel(entries[n], true).value;
      assert ReconcileEntries(entries, removed)[..n] == ReconcileEntries(entries[..n], removed);
      assert ReconcileLabels(rest + [last], removed) == ReconcileLabels(rest, removed) + [Label(last.name, ReconcileRoute(last.route, removed))];
    } else {
      assert ReconcileLabels([], removed) == [];
    }
  }

  lemma ReconciledNames(labels: seq<Label>, removed: set<string>)
    ensures LabelNames(ReconcileLabels(labels, removed)) == LabelNames(labels)
  {
    var cut := ReconcileLabels(labels, removed);
    forall name ensures name in LabelNames(cut) <==> name in LabelNames(labels) {
      if name in LabelNames(labels) {
        var i :| 0 <= i < |labels| && labels[i].name == name;
        assert cut[i].name == name;
      }
    }
  }

  /** Two documents that differ in labels and selection only. */
  ghost predicate SameElse(data: map<string, Json>, cut: map<string, Json>) {
    && cut.Keys == data.Keys
    && forall key :: key in data && key != "labels" && key != "selected_models" ==> cut[key] == data[key]
  }

  lemma SameSections(data: map<string, Json>, cut: map<string, Json>)
    requires SameElse(data, cut)
    ensures Section(cut, "escalation", ESCALATION_KEYS) == Section(data, "escalation", ESCALATION_KEYS)
    ensures Section(cut, "hysteresis", HYSTERESIS_KEYS) == Section(data, "hysteresis", HYSTERESIS_KEYS)
    ensures Section(cut, "pin", PIN_KEYS) == Section(data, "pin", PIN_KEYS)
    ensures Section(cut, "budget", BUDGET_KEYS) == Section(data, "budget", BUDGET_KEYS)
  {
    assert |"labels"| == 6 && |"selected_models"| == 15;
    assert |"escalation"| == 10 && |"hysteresis"| == 10 && |"pin"| == 3 && "budget"[0] != "labels"[0];
  }

  lemma SameValues(data: map<string, Json>, cut: map<string, Json>, base: Text)
    requires SameElse(data, cut)
    ensures Section(cut, "reasoning", REASONING_KEYS) == Section(data, "reasoning", REASONING_KEYS)
    ensures ParseMode(cut, base.policy.mode) == ParseMode(data, base.policy.mode)
    ensures ParseSelection(cut, base.policy.selection) == ParseSelection(data, base.policy.selection)
    ensures ParseReasoning(cut, base.reasoning) == ParseReasoning(data, base.reasoning)
  {
    assert |"labels"| == 6 && |"selected_models"| == 15 && |"mode"| == 4 && |"selection"| == 9 && |"reasoning"| == 9;
  }

  /** The policy of a workflow with its selection put back, without the removed models. */
  function CutFields(data: map<string, Json>, removed: set<string>): map<string, Json>
    requires "labels" in data && data["labels"].JOrdered? && "selected_models" in data && Strings(data["selected_models"]).Some?
  {
    data["labels" := JOrdered(ReconcileEntries(data["labels"].entries, removed))]
        ["selected_models" := JArray(Texts(Kept(Strings(data["selected_models"]).value, removed)))]
  }

  lemma CutIsSameElse(data: map<string, Json>, removed: set<string>)
    requires "labels" in data && data["labels"].JOrdered? && "selected_models" in data && Strings(data["selected_models"]).Some?
    ensures var cut := CutFields(data, removed);
      && SameElse(data, cut)
      && cut["labels"] == JOrdered(ReconcileEntries(data["labels"].entries, removed))
      && Strings(cut["selected_models"]) == Some(Kept(Strings(data["selected_models"]).value, removed))
  {
    assert |"labels"| == 6 && |"selected_models"| == 15;
    StringsOfTexts(Kept(Strings(data["selected_models"]).value, removed));
  }

  /** The parts a policy with its own labels and selection is parsed from. */
  ghost predicate FromParts(data: map<string, Json>, base: Option<Text>, strategy: string, p: Text)
    requires "labels" in data && "selected_models" in data
  {
    && ParseSelected(data, Defaults(base).policy.selectedModels) == Ok(p.policy.selectedModels) && p.policy.selectedModels.Some?
    && ParseLabelled(data, base, strategy, true) == Ok(Labelled(p.policy.labels, p.tierModels))
  }

  lemma PartsOf(data: map<string, Json>, base: Option<Text>, strategy: string)
    requires "labels" in data && "selected_models" in data && ParsePolicy(data, base, strategy).Ok?
    ensures FromParts(data, base, strategy, ParsePolicy(data, base, strategy).value)
    ensures data["labels"].JOrdered? && data["labels"].entries != [] && "tier_models" !in data
    ensures Strings(data["selected_models"]).Some? && SelectedOk(Strings(data["selected_models"]).value)
  {
  }

  lemma CutParts(data: map<string, Json>, base: Option<Text>, strategy: string, removed: set<string>)
    requires "labels" in data && "selected_models" in data && ParsePolicy(data, base, strategy).Ok?
    ensures data["labels"].JOrdered? && Strings(data["selected_models"]).Some?
    ensures var p := ParsePolicy(data, base, strategy).value;
      FromParts(CutFields(data, removed), base, strategy, p.(policy := Reconciled(p.policy, removed)))
  {
    PartsOf(data, base, strategy);
    CutIsSameElse(data, removed);
    KeptDistinct(Strings(data["selected_models"]).value, removed);
    ReconciledLabels(data["labels"].entries, removed);
    assert |"tier_models"| == 11 && |"labels"| == 6 && |"selected_models"| == 15;
  }

  lemma SameChecks(data: map<string, Json>, cut: map<string, Json>, reasoning: Reasoning, section: map<string, Json>, a: seq<Label>, b: seq<Label>)
    requires SameElse(data, cut) && LabelNames(a) == LabelNames(b)
    ensures CheckEfforts(cut, reasoning, section, b) == CheckEfforts(data, reasoning, section, a)
  {
  }

  /** Parsing a reconciled workflow gives the reconciled policy. */
  lemma ReconciledParses(data: map<string, Json>, base: Option<Text>, strategy: string, removed: set<string>)
    requires "labels" in data && "selected_models" in data && ParsePolicy(data, base, strategy).Ok?
    ensures data["labels"].JOrdered? && Strings(data["selected_models"]).Some?
    ensures var p := ParsePolicy(data, base, strategy).value;
      ParsePolicy(CutFields(data, removed), base, strategy) == Ok(p.(policy := Reconciled(p.policy, removed)))
  {
    var p := ParsePolicy(data, base, strategy).value;
    var cut := CutFields(data, removed);
    CutParts(data, base, strategy, removed);
    PartsOf(data, base, strategy);
    CutIsSameElse(data, removed);
    SameSections(data, cut);
    SameValues(data, cut, Defaults(base));
    ReconciledNames(p.policy.labels, removed);
    var section := Section(data, "reasoning", REASONING_KEYS);
    var reasoning := ParseReasoning(data, Defaults(base).reasoning);
    SameChecks(data, cut, reasoning.value, section.value, p.policy.labels, ReconcileLabels(p.policy.labels, removed));
  }

  /** The workflow's document after the removal is that edited document. */
  lemma InstalledIsCut(w: Workflow, removed: set<string>)
    requires w.definition.policy.JObject? && "labels" in w.definition.policy.fields && w.definition.policy.fields["labels"].JOrdered?
    ensures var data := Installed(w).policy.fields;
      && "labels" in data && data["labels"].JOrdered? && "selected_models" in data && Strings(data["selected_models"]) == Some(w.selected)
      && Installed(ReconcileWorkflow(w, removed)).policy == JObject(CutFields(data, removed))
  {
    assert |"labels"| == 6 && |"selected_models"| == 15;
    StringsOfTexts(w.selected);
    var fields := w.definition.policy.fields;
    var data := Installed(w).policy.fields;
    assert data == fields["selected_models" := JArray(Texts(w.selected))];
    assert Installed(ReconcileWorkflow(w, removed)).policy.fields == CutFields(data, removed);
  }
}
