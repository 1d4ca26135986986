/**
 Strategy documents and version 2 overlays: a merge prints every strategy, deletes and defines
 some, and the result is parsed again.
 */
module Overlay {
  import opened Wrappers
  import opened Catalogs
  import opened PolicyText
  import Reparse
  import Reprint

  /**
   A strategy's body. The compact form has the policy's keys beside the others, so that no key is
   left over; the wrapped one has them under `policy`, and `extra` holds the keys nobody knows.
   */
  datatype Body = Body(
    description: Option<string>, kind: Option<string>, options: Option<Json>, provider: Option<string>, policy: Json,
    extra: set<string>)

  datatype Entry = Entry(name: string, body: Body)

  datatype Document = Wrapped(defaultStrategy: Option<string>, entries: seq<Entry>) | Compact(entries: seq<Entry>)

  datatype Definition = Definition(
    name: string, policy: Text, description: Option<string>, kind: string, options: Json, provider: Option<string>)

  datatype Refused =
    | NoStrategies | BadDefault | NoBaseline | EmptyName | UnknownKeys | BadPolicy | BadKind | BadProvider | BadOptions
    | InPolicy(reason: Invalid)
    | DefaultDeleted | UnknownDeleted | UnknownTuned | NamesAModel | UnknownSelected | UnknownProvider | PoolOutsideSelection

  datatype Parsed = Parsed(definitions: seq<Definition>, defaultStrategy: string)

  // Parsing a strategies document

  /** A definition around its policy. */
  function ParseBody(e: Entry, policy: Result<Text, Invalid>): Result<Definition, Refused> {
    var name := Strip(e.name);
    var kind := if e.body.kind.Some? then e.body.kind.value else "auto";
    var description := if e.body.description.Some? then Strip(e.body.description.value) else "";
    if name == "" then Err(EmptyName)
    else if e.body.extra != {} then Err(UnknownKeys)
    else if !e.body.policy.JObject? then Err(BadPolicy)
    else if Strip(kind) == "" then Err(BadKind)
    else if policy.Err? then Err(InPolicy(policy.error))
    else if e.body.provider.Some? && Strip(e.body.provider.value) == "" then Err(BadProvider)
    else if e.body.options.Some? && !e.body.options.value.JObject? then Err(BadOptions)
    else Ok(Definition(
      name, policy.value, if description == "" then None else Some(description), Strip(kind),
      if e.body.options.Some? then e.body.options.value else JObject(map[]),
      if e.body.provider.Some? then Some(Strip(e.body.provider.value)) else None))
  }

  function PolicyFields(body: Body): map<string, Json> {
    if body.policy.JObject? then body.policy.fields else map[]
  }

  function ParseDefinition(e: Entry, base: Option<Text>, strategy: string): Result<Definition, Refused> {
    ParseBody(e, ParsePolicy(PolicyFields(e.body), base, strategy))
  }

  /** All values, or the first error. */
  function Gather<T, E>(results: seq<Result<T, E>>): Result<seq<T>, E> {
    if results == [] then Ok([])
    else
      var rest := Gather(results[..|results| - 1]);
      if rest.Err? then rest
      else
        var last := results[|results| - 1];
        if last.Err? then Err(last.error) else Ok(rest.value + [last.value])
  }

  lemma {:induction false} Gathered<T, E>(results: seq<Result<T, E>>)
    ensures Gather(results).Ok? <==> forall i :: 0 <= i < |results| ==> results[i].Ok?
    ensures Gather(results).Ok? ==>
      |Gather(results).value| == |results| && forall i :: 0 <= i < |results| ==> results[i] == Ok(Gather(results).value[i])
  {
    if results != [] {
      Gathered(results[..|results| - 1]);
    }
  }

  lemma {:induction false} FirstErrorWins<T, E>(results: seq<Result<T, E>>, n: nat)
    requires n <= |results| && Gather(results[..n]).Err?
    ensures Gather(results) == Gather(results[..n])
    decreases |results|
  {
    if n < |results| {
      var m := |results| - 1;
      assert results[..m][..n] == results[..n];
      FirstErrorWins(results[..m], n);
    } else {
      assert results[..n] == results;
    }
  }

  function Each<A, B>(items: seq<A>, f: A -> B): (r: seq<B>)
    ensures |r| == |items| && forall i :: 0 <= i < |items| ==> r[i] == f(items[i])
  {
    seq(|items|, i requires 0 <= i < |items| => f(items[i]))
  }

  /** One pass over some entries; the first one refused is reported. */
  method GatherEach<A, T, E>(items: seq<A>, parse: A -> Result<T, E>) returns (r: Result<seq<T>, E>)
    ensures r == Gather(Each(items, parse))
  {
    ghost var all := Each(items, parse);
    var values: seq<T> := [];
    var i := 0;
    while i < |items|
      invariant 0 <= i <= |items|
      invariant Gather(all[..i]) == Ok(values)
    {
      assert all[..i + 1][..i] == all[..i];
      var entry := parse(items[i]);
      if entry.Err? {
        FirstErrorWins(all, i + 1);
        return Err(entry.error);
      }
      values := values + [entry.value];
      i := i + 1;
    }
    assert all[..|all|] == all;
    return Ok(values);
  }

  function Parser(base: Option<Text>, strategy: string): Entry -> Result<Definition, Refused> {
    e => ParseDefinition(e, base, strategy)
  }

  function ParseEntries(entries: seq<Entry>, base: Option<Text>, strategy: string): Result<seq<Definition>, Refused> {
    Gather(Each(entries, Parser(base, strategy)))
  }

  /** The strategy every inherited label is scoped to. */
  function DefaultName(doc: Document): string {
    if doc.Compact? || doc.defaultStrategy.None? then "task_aware" else Strip(doc.defaultStrategy.value)
  }

  function ParseStrategies(doc: Document, base: Option<Text>): Result<Parsed, Refused> {
    if doc.entries == [] then Err(NoStrategies)
    else if doc.Wrapped? && doc.defaultStrategy.Some? && Blank(doc.defaultStrategy.value) then Err(BadDefault)
    else if doc.Compact? && base.None? then Err(NoBaseline)
    else
      var definitions := ParseEntries(doc.entries, base, DefaultName(doc));
      if definitions.Err? then Err(definitions.error) else Ok(Parsed(definitions.value, DefaultName(doc)))
  }

  method StrategiesFromDocument(doc: Document, base: Option<Text>) returns (r: Result<Parsed, Refused>)
    ensures r == ParseStrategies(doc, base)
  {
    if doc.entries == [] {
      return Err(NoStrategies);
    }
    if doc.Wrapped? && doc.defaultStrategy.Some? && Blank(doc.defaultStrategy.value) {
      return Err(BadDefault);
    }
    if doc.Compact? && base.None? {
      return Err(NoBaseline);
    }
    var strategy := DefaultName(doc);
    var definitions := GatherEach(doc.entries, Parser(base, strategy));
    return if definitions.Err? then Err(definitions.error) else Ok(Parsed(definitions.value, strategy));
  }

  // Bodies by name, in document order

  function Lookup(bodies: seq<Entry>, name: string): Option<Body> {
    if bodies == [] then None
    else if bodies[0].name == name then Some(bodies[0].body)
    else Lookup(bodies[1..], name)
  }

  /** Setting a name keeps its place when it has one. */
  function Put(bodies: seq<Entry>, name: string, body: Body): seq<Entry> {
    if bodies == [] then [Entry(name, body)]
    else if bodies[0].name == name then [Entry(name, body)] + bodies[1..]
    else [bodies[0]] + Put(bodies[1..], name, body)
  }

  function Remove(bodies: seq<Entry>, name: string): seq<Entry> {
    if bodies == [] then []
    else if bodies[0].name == name then Remove(bodies[1..], name)
    else [bodies[0]] + Remove(bodies[1..], name)
  }

  lemma {:induction false} LookupPut(bodies: seq<Entry>, name: string, body: Body, other: string)
    ensures Lookup(Put(bodies, name, body), other) == if other == name then Some(body) else Lookup(bodies, other)
  {
    if bodies != [] {
      LookupPut(bodies[1..], name, body, other);
    }
  }

  lemma {:induction false} LookupRemove(bodies: seq<Entry>, name: string, other: string)
    ensures Lookup(Remove(bodies, name), other) == if other == name then None else Lookup(bodies, other)
  {
    if bodies != [] {
      LookupRemove(bodies[1..], name, other);
    }
  }

  // Merging

  datatype Workflow = Workflow(name: string, definition: Body, selected: seq<string>)

  /** New tags or a new priority for one model of the catalog. */
  datatype Tuning = Tuning(model: string, tags: Option<seq<string>>, priority: Option<int>)

  datatype Overlay = Overlay(workflows: seq<Workflow>, deleted: seq<string>, tunings: seq<Tuning>)

  /** What an overlay is merged into, besides the strategies: the model ids and the decision providers. */
  datatype Surroundings = Surroundings(models: set<string>, providers: set<string>)

  /** A definition without its legacy tier lists, as a document body. */
  function PrintBody(d: Definition): Body {
    Body(d.description, Some(d.kind), Some(d.options), d.provider, JObject(Print(d.policy)), {})
  }

  function PrintAll(definitions: seq<Definition>): seq<Entry> {
    if definitions == [] then []
    else Put(PrintAll(definitions[..|definitions| - 1]), definitions[|definitions| - 1].name, PrintBody(definitions[|definitions| - 1]))
  }

  /** The label entries of a body's policy. */
  function LabelEntries(body: Body): seq<Field> {
    if body.policy.JObject? && "labels" in body.policy.fields && body.policy.fields["labels"].JOrdered?
    then body.policy.fields["labels"].entries else []
  }

  function PoolOf(entry: Field): seq<string> {
    if entry.value.JObject? && "models" in entry.value.fields && Strings(entry.value.fields["models"]).Some?
    then Strings(entry.value.fields["models"]).value else []
  }

  predicate PoolsWithin(entries: seq<Field>, selected: seq<string>) {
    forall i, m :: 0 <= i < |entries| && m in PoolOf(entries[i]) ==> m in selected
  }

  /** The body a workflow installs: its definition with the selection put back into the policy. */
  function Installed(w: Workflow): Body {
    if w.definition.policy.JObject?
    then w.definition.(policy := JObject(w.definition.policy.fields["selected_models" := JArray(Texts(w.selected))]))
    else w.definition
  }

  /** The checks on one workflow, in order. */
  function CheckWorkflow(w: Workflow, around: Surroundings): Result<Body, Refused> {
    if w.name in around.models then Err(NamesAModel)
    else if exists m :: m in w.selected && m !in around.models then Err(UnknownSelected)
    else if w.definition.provider.Some? && w.definition.provider.value !in around.providers then Err(UnknownProvider)
    else if !PoolsWithin(LabelEntries(w.definition), w.selected) then Err(PoolOutsideSelection)
    else Ok(Installed(w))
  }

  ghost predicate TunedOnce(tunings: seq<Tuning>) {
    forall i, j :: 0 <= i < j < |tunings| ==> tunings[i].model != tunings[j].model
  }

  /** Overlay shapes are validated before a merge: names are stated once, and none is both defined and deleted. */
  ghost predicate WellShaped(o: Overlay) {
    && (forall i, j :: 0 <= i < j < |o.workflows| ==> o.workflows[i].name != o.workflows[j].name)
    && TunedOnce(o.tunings)
    && Distinct(o.deleted)
    && forall i :: 0 <= i < |o.workflows| ==> o.workflows[i].name !in o.deleted
  }

  ghost predicate Acceptable(bodies: seq<Entry>, defaultStrategy: string, o: Overlay, around: Surroundings) {
    && (forall name :: name in o.deleted ==> name != defaultStrategy && Lookup(bodies, name).Some?)
    && (forall i :: 0 <= i < |o.workflows| ==> CheckWorkflow(o.workflows[i], around).Ok?)
    && (forall i :: 0 <= i < |o.tunings| ==> o.tunings[i].model in around.models)
  }

  /** A name the overlay neither defines nor deletes. */
  ghost predicate Untouched(o: Overlay, name: string) {
    name !in o.deleted && forall i :: 0 <= i < |o.workflows| ==> o.workflows[i].name != name
  }

  method DeleteStrategies(bodies: seq<Entry>, defaultStrategy: string, deleted: seq<string>) returns (r: Result<seq<Entry>, Refused>)
    requires Distinct(deleted) && OncePerName(bodies)
    ensures r.Ok? ==> OncePerName(r.value)
    ensures r.Ok? <==> forall name :: name in deleted ==> name != defaultStrategy && Lookup(bodies, name).Some?
    ensures r.Ok? ==> forall name :: Lookup(r.value, name) == if name in deleted then None else Lookup(bodies, name)
  {
    var left := bodies;
    var i := 0;
    while i < |deleted|
      invariant 0 <= i <= |deleted| && OncePerName(left)
      invariant forall name :: name in deleted[..i] ==> name != defaultStrategy && Lookup(bodies, name).Some?
      invariant forall name :: Lookup(left, name) == if name in deleted[..i] then None else Lookup(bodies, name)
    {
      var name := deleted[i];
      assert name !in deleted[..i];
      if name == defaultStrategy {
        return Err(DefaultDeleted);
      }
      if Lookup(left, name).None? {
        return Err(UnknownDeleted);
      }
      assert Lookup(left, name) == Lookup(bodies, name);
      assert deleted[..i + 1] == deleted[..i] + [name];
      forall other ensures Lookup(Remove(left, name), other) == if other == name then None else Lookup(left, other) {
        LookupRemove(left, name, other);
      }
      RemoveOncePerName(left, name);
      left := Remove(left, name);
      i := i + 1;
    }
    assert deleted[..|deleted|] == deleted;
    return Ok(left);
  }

  method InstallWorkflows(bodies: seq<Entry>, workflows: seq<Workflow>, around: Surroundings) returns (r: Result<seq<Entry>, Refused>)
    requires OncePerName(bodies)
    requires forall i, j :: 0 <= i < j < |workflows| ==> workflows[i].name != workflows[j].name
    ensures r.Ok? ==> OncePerName(r.value)
    ensures r.Ok? <==> forall i :: 0 <= i < |workflows| ==> CheckWorkflow(workflows[i], around).Ok?
    ensures r.Ok? ==> forall i :: 0 <= i < |workflows| ==> Lookup(r.value, workflows[i].name) == Some(Installed(workflows[i]))
    ensures r.Ok? ==> forall name :: (forall i :: 0 <= i < |workflows| ==> workflows[i].name != name) ==>
              Lookup(r.value, name) == Lookup(bodies, name)
  {
    var merged := bodies;
    var i := 0;
    while i < |workflows|
      invariant 0 <= i <= |workflows| && OncePerName(merged)
      invariant forall j :: 0 <= j < i ==> CheckWorkflow(workflows[j], around).Ok?
      invariant forall j :: 0 <= j < i ==> Lookup(merged, workflows[j].name) == Some(Installed(workflows[j]))
      invariant forall name :: (forall j :: 0 <= j < i ==> workflows[j].name != name) ==> Lookup(merged, name) == Lookup(bodies, name)
    {
      var body := CheckWorkflow(workflows[i], around);
      if body.Err? {
        return Err(body.error);
      }
      var name := workflows[i].name;
      forall other ensures Lookup(Put(merged, name, body.value), other) == if other == name then Some(body.value) else Lookup(merged, other) {
        LookupPut(merged, name, body.value, other);
      }
      PutOncePerName(merged, name, body.value);
      merged := Put(merged, name, body.value);
      i := i + 1;
    }
    return Ok(merged);
  }

  // Model changes

  function Ids(profiles: seq<Profile>): set<string> {
    set i | 0 <= i < |profiles| :: profiles[i].name
  }

  /** The last model of that id: the one a change reaches. */
  function FindLast(profiles: seq<Profile>, id: string): (found: Option<nat>)
    ensures found.Some? ==> IsLastNamed(profiles, found.value) && profiles[found.value].name == id
    ensures found.None? ==> id !in Ids(profiles)
  {
    if profiles == [] then None
    else if profiles[|profiles| - 1].name == id then Some(|profiles| - 1)
    else
      assert forall i :: 0 <= i < |profiles| - 1 ==> profiles[..|profiles| - 1][i] == profiles[i];
      FindLast(profiles[..|profiles| - 1], id)
  }

  predicate IsLastNamed(profiles: seq<Profile>, i: nat) {
    i < |profiles| && forall j :: i < j < |profiles| ==> profiles[j].name != profiles[i].name
  }

  function Tuned(p: Profile, t: Tuning): Profile {
    p.(tags := if t.tags.Some? then t.tags.value else p.tags, priority := if t.priority.Some? then t.priority.value else p.priority)
  }

  /** What changes leave of model i: a change of its id, if it is the one that id reaches, and otherwise itself. */
  ghost predicate IsTuned(profiles: seq<Profile>, tunings: seq<Tuning>, i: nat, after: Profile)
    requires i < |profiles|
  {
    && (forall t :: t in tunings && t.model == profiles[i].name && IsLastNamed(profiles, i) ==> after == Tuned(profiles[i], t))
    && (!IsLastNamed(profiles, i) || (forall t :: t in tunings ==> t.model != profiles[i].name) ==> after == profiles[i])
  }

  ghost predicate AllTuned(profiles: seq<Profile>, tunings: seq<Tuning>, after: seq<Profile>) {
    |after| == |profiles| && forall i :: 0 <= i < |profiles| ==> IsTuned(profiles, tunings, i, after[i])
  }

  lemma TunedNext(profiles: seq<Profile>, tunings: seq<Tuning>, n: nat, i: nat, k: nat, before: Profile, after: Profile)
    requires TunedOnce(tunings) && n < |tunings| && i < |profiles|
    requires IsLastNamed(profiles, k) && profiles[k].name == tunings[n].model
    requires IsTuned(profiles, tunings[..n], i, before)
    requires after == if i == k then Tuned(before, tunings[n]) else before
    ensures IsTuned(profiles, tunings[..n + 1], i, after)
  {
    assert tunings[..n + 1] == tunings[..n] + [tunings[n]];
    assert forall t :: t in tunings[..n] ==> t.model != tunings[n].model;
    if IsLastNamed(profiles, i) && profiles[i].name == tunings[n].model {
      assert i == k;
      assert before == profiles[i];
    }
  }

  /** Changes reach models of the catalog only. */
  method TuneModels(profiles: seq<Profile>, tunings: seq<Tuning>) returns (r: Result<seq<Profile>, Refused>)
    requires TunedOnce(tunings)
    ensures r.Ok? <==> forall i :: 0 <= i < |tunings| ==> tunings[i].model in Ids(profiles)
    ensures r.Ok? ==> AllTuned(profiles, tunings, r.value)
  {
    var tuned := profiles;
    var n := 0;
    while n < |tunings|
      invariant 0 <= n <= |tunings|
      invariant forall i :: 0 <= i < n ==> tunings[i].model in Ids(profiles)
      invariant AllTuned(profiles, tunings[..n], tuned)
    {
      var found := FindLast(profiles, tunings[n].model);
      if found.None? {
        return Err(UnknownTuned);
      }
      var k := found.value;
      assert profiles[k].name in Ids(profiles);
      ghost var was := tuned;
      tuned := tuned[k := Tuned(tuned[k], tunings[n])];
      forall i | 0 <= i < |profiles| ensures IsTuned(profiles, tunings[..n + 1], i, tuned[i]) {
        TunedNext(profiles, tunings, n, i, k, was[i], tuned[i]);
      }
      n := n + 1;
    }
    assert tunings[..|tunings|] == tunings;
    return Ok(tuned);
  }

  // The whole merge

  datatype Merged = Merged(document: Document, profiles: seq<Profile>)

  /** A dictionary has one entry per name. */
  ghost predicate OncePerName(bodies: seq<Entry>) {
    forall i, j :: 0 <= i < j < |bodies| ==> bodies[i].name != bodies[j].name
  }

  lemma {:induction false} LookupOfEntry(bodies: seq<Entry>, k: nat)
    requires OncePerName(bodies) && k < |bodies|
    ensures Lookup(bodies, bodies[k].name) == Some(bodies[k].body)
  {
    if k > 0 {
      assert bodies[0].name != bodies[k].name;
      LookupOfEntry(bodies[1..], k - 1);
    }
  }

  lemma {:induction false} PutOncePerName(bodies: seq<Entry>, name: string, body: Body)
    requires OncePerName(bodies)
    ensures OncePerName(Put(bodies, name, body))
    ensures forall i :: 0 <= i < |Put(bodies, name, body)| ==>
      Put(bodies, name, body)[i].name == name || exists j :: 0 <= j < |bodies| && bodies[j].name == Put(bodies, name, body)[i].name
  {
    if bodies != [] {
      PutOncePerName(bodies[1..], name, body);
      var rest := Put(bodies[1..], name, body);
      if bodies[0].name != name {
        forall i | 0 <= i < |rest|
          ensures rest[i].name != bodies[0].name
          ensures rest[i].name == name || exists j :: 0 <= j < |bodies| && bodies[j].name == rest[i].name
        {
          if rest[i].name != name {
            var j :| 0 <= j < |bodies[1..]| && bodies[1..][j].name == rest[i].name;
            assert bodies[j + 1].name == rest[i].name;
          }
        }
      }
    }
  }

  lemma {:induction false} RemoveOncePerName(bodies: seq<Entry>, name: string)
    requires OncePerName(bodies)
    ensures OncePerName(Remove(bodies, name))
    ensures forall i :: 0 <= i < |Remove(bodies, name)| ==> exists j :: 0 <= j < |bodies| && bodies[j].name == Remove(bodies, name)[i].name
  {
    if bodies != [] {
      RemoveOncePerName(bodies[1..], name);
      var rest := Remove(bodies[1..], name);
      forall i | 0 <= i < |rest|
        ensures rest[i].name != bodies[0].name && exists j :: 0 <= j < |bodies| && bodies[j].name == rest[i].name
      {
        var j :| 0 <= j < |bodies[1..]| && bodies[1..][j].name == rest[i].name;
        assert bodies[j + 1].name == rest[i].name;
      }
    }
  }

  lemma {:induction false} PrintAllOncePerName(definitions: seq<Definition>)
    ensures OncePerName(PrintAll(definitions))
  {
    if definitions != [] {
      PrintAllOncePerName(definitions[..|definitions| - 1]);
      PutOncePerName(PrintAll(definitions[..|definitions| - 1]), definitions[|definitions| - 1].name, PrintBody(definitions[|definitions| - 1]));
    }
  }

  method PrintStrategies(definitions: seq<Definition>) returns (bodies: seq<Entry>)
    ensures bodies == PrintAll(definitions) && OncePerName(bodies)
  {
    bodies := [];
    var i := 0;
    while i < |definitions|
      invariant 0 <= i <= |definitions|
      invariant bodies == PrintAll(definitions[..i])
    {
      assert definitions[..i + 1][..i] == definitions[..i];
      bodies := Put(bodies, definitions[i].name, PrintBody(definitions[i]));
      i := i + 1;
    }
    assert definitions[..|definitions|] == definitions;
    PrintAllOncePerName(definitions);
  }

  /**
   A merged document. A merge succeeds exactly when every deletion names a strategy other than
   the default, every workflow passes its checks and every changed model is configured; each
   workflow is then installed, deleted names are gone, every other name keeps the body printed
   from it, and the changed models have their new tags and priorities.
   */
  method MergeOverlay(
      definitions: seq<Definition>, defaultStrategy: string, profiles: seq<Profile>, o: Overlay, around: Surroundings)
    returns (r: Result<Merged, Refused>)
    requires WellShaped(o) && around.models == Ids(profiles)
    ensures r.Ok? <==> Acceptable(PrintAll(definitions), defaultStrategy, o, around)
    ensures r.Ok? ==> r.value.document.Wrapped? && r.value.document.defaultStrategy == Some(defaultStrategy)
    ensures r.Ok? ==> IsMerge(definitions, o, r.value.document.entries)
    ensures r.Ok? ==> AllTuned(profiles, o.tunings, r.value.profiles)
  {
    var bodies := PrintStrategies(definitions);
    var left := DeleteStrategies(bodies, defaultStrategy, o.deleted);
    if left.Err? {
      return Err(left.error);
    }
    var merged := InstallWorkflows(left.value, o.workflows, around);
    if merged.Err? {
      return Err(merged.error);
    }
    var tuned := TuneModels(profiles, o.tunings);
    return if tuned.Err? then Err(tuned.error) else Ok(Merged(Wrapped(Some(defaultStrategy), merged.value), tuned.value));
  }

  /** The strategies of a merged document, looked up by name. */
  ghost predicate IsMerge(definitions: seq<Definition>, o: Overlay, entries: seq<Entry>) {
    && OncePerName(entries)
    && (forall i :: 0 <= i < |o.workflows| ==> Lookup(entries, o.workflows[i].name) == Some(Installed(o.workflows[i])))
    && (forall name :: name in o.deleted ==> Lookup(entries, name) == None)
    && (forall name :: Untouched(o, name) ==> Lookup(entries, name) == Lookup(PrintAll(definitions), name))
  }

  // What a merge leaves alone

  function NormalDefinition(d: Definition): Definition {
    d.(policy := Normal(d.policy))
  }

  /** A later strategy of the same name replaces an earlier one. */
  ghost predicate IsLast(definitions: seq<Definition>, i: nat) {
    i < |definitions| && forall j :: i < j < |definitions| ==> definitions[j].name != definitions[i].name
  }

  lemma {:induction false} PrintedBody(definitions: seq<Definition>, i: nat)
    requires IsLast(definitions, i)
    ensures Lookup(PrintAll(definitions), definitions[i].name) == Some(PrintBody(definitions[i]))
    decreases |definitions|
  {
    var n := |definitions| - 1;
    LookupPut(PrintAll(definitions[..n]), definitions[n].name, PrintBody(definitions[n]), definitions[i].name);
    if i < n {
      PrintedBody(definitions[..n], i);
    }
  }

  /** A body printed from a definition, around any policy, is that definition around it; only the policy can refuse it. */
  lemma InstalledBody(e: Entry, p: Text, d: Definition, body: Body, again: Result<Text, Invalid>)
    requires ParseBody(e, Ok(p)) == Ok(d) && body.(policy := JNull) == PrintBody(d).(policy := JNull) && body.policy.JObject?
    ensures again.Ok? ==> ParseBody(Entry(d.name, body), again) == Ok(d.(policy := again.value))
    ensures again.Err? ==> ParseBody(Entry(d.name, body), again) == Err(InPolicy(again.error))
  {
    StripTwice(e.name);
    StripTwice(if e.body.kind.Some? then e.body.kind.value else "auto");
    if e.body.description.Some? { StripTwice(e.body.description.value); }
    if e.body.provider.Some? { StripTwice(e.body.provider.value); }
    var printed := PrintBody(d);
    assert body.description == printed.description && body.kind == printed.kind && body.options == printed.options;
    assert body.provider == printed.provider && body.extra == printed.extra;
  }

  lemma PrintedBodyEnds(e: Entry, p: Text, again: Result<Text, Invalid>, trimmed: Text, normal: Text)
    requires ParseBody(e, Ok(p)).Ok? && (again.Ok? ==> again == Ok(trimmed))
    ensures var d := ParseBody(e, Ok(p)).value; var r := ParseBody(Entry(d.name, PrintBody(d)), again);
      && d.policy == p && (r.Ok? <==> again.Ok?) && (r.Ok? ==> r == Ok(d.(policy := trimmed)))
      && (r == Ok(d.(policy := normal)) <==> again == Ok(normal))
  {
    var d := ParseBody(e, Ok(p)).value;
    InstalledBody(e, p, d, PrintBody(d), again);
  }

  function TrimmedDefinition(d: Definition): Definition {
    d.(policy := Normal(Reparse.Trimmed(d.policy)))
  }

  /**
   A strategy printed by a merge is refused, read back as the same strategy, or read back without
   the space around its inherited tags; each exactly as its document relied on what printing loses.
   */
  lemma DefinitionRoundTripIff(e: Entry, base: Option<Text>, top: map<string, Json>, strategy: string)
    requires Reprint.IsBaseline(base, top) && ParseDefinition(e, base, strategy).Ok?
    ensures var d := ParseDefinition(e, base, strategy).value;
      var again := ParseDefinition(Entry(d.name, PrintBody(d)), base, strategy);
      && (again.Ok? <==> Reparse.StillParses(PolicyFields(e.body), base, strategy))
      && (again.Ok? ==> again == Ok(TrimmedDefinition(d)))
      && (again == Ok(NormalDefinition(d)) <==> Reprint.NothingLost(PolicyFields(e.body), base, strategy))
  {
    var p := ParsePolicy(PolicyFields(e.body), base, strategy);
    Reparse.ReprintParsesIff(PolicyFields(e.body), base, top, strategy);
    PrintedBodyEnds(e, p.value, ParsePolicy(Print(p.value), base, strategy), Normal(Reparse.Trimmed(p.value)), Normal(p.value));
  }

  lemma DefaultNameKept(doc: Document)
    ensures Strip(DefaultName(doc)) == DefaultName(doc)
  {
    assert TrimLeft("task_aware") == "task_aware" && TrimRight("task_aware") == "task_aware";
    if doc.Wrapped? && doc.defaultStrategy.Some? { StripTwice(doc.defaultStrategy.value); }
  }

  lemma DocumentEntries(doc: Document, base: Option<Text>)
    requires ParseStrategies(doc, base).Ok?
    ensures var p := ParseStrategies(doc, base).value;
      && p.defaultStrategy == DefaultName(doc) && |p.definitions| == |doc.entries|
      && forall i :: 0 <= i < |doc.entries| ==> ParseDefinition(doc.entries[i], base, DefaultName(doc)) == Ok(p.definitions[i])
  {
    Gathered(Each(doc.entries, Parser(base, DefaultName(doc))));
  }

  lemma {:induction false} LookupFindsAnEntry(bodies: seq<Entry>, name: string) returns (k: nat)
    requires Lookup(bodies, name).Some?
    ensures k < |bodies| && bodies[k] == Entry(name, Lookup(bodies, name).value)
  {
    if bodies[0].name == name {
      k := 0;
    } else {
      k := LookupFindsAnEntry(bodies[1..], name);
      k := k + 1;
    }
  }

  /** Strategy i of the baseline is the one its name stands for, and the overlay neither defines nor deletes it. */
  ghost predicate StaysUntouched(definitions: seq<Definition>, o: Overlay, i: nat) {
    IsLast(definitions, i) && Untouched(o, definitions[i].name)
  }

  lemma {:induction false} LastOfName(definitions: seq<Definition>, name: string) returns (i: nat)
    requires Lookup(PrintAll(definitions), name).Some?
    ensures IsLast(definitions, i) && definitions[i].name == name
  {
    var n := |definitions| - 1;
    LookupPut(PrintAll(definitions[..n]), definitions[n].name, PrintBody(definitions[n]), name);
    if definitions[n].name == name {
      i := n;
    } else {
      i := LastOfName(definitions[..n], name);
    }
  }

  /** What a merged entry is: an installed workflow, or the body printed from an untouched strategy. */
  lemma EntryIs(definitions: seq<Definition>, o: Overlay, entries: seq<Entry>, k: nat) returns (j: nat, i: nat)
    requires IsMerge(definitions, o, entries) && k < |entries|
    ensures
      || (j < |o.workflows| && entries[k] == Entry(o.workflows[j].name, Installed(o.workflows[j])))
      || (StaysUntouched(definitions, o, i) && entries[k] == Entry(definitions[i].name, PrintBody(definitions[i])))
  {
    j, i := 0, 0;
    LookupOfEntry(entries, k);
    if l :| 0 <= l < |o.workflows| && o.workflows[l].name == entries[k].name {
      j := l;
    } else {
      assert Untouched(o, entries[k].name);
      i := LastOfName(definitions, entries[k].name);
      PrintedBody(definitions, i);
    }
  }

  lemma UntouchedEntry(definitions: seq<Definition>, o: Overlay, entries: seq<Entry>, i: nat) returns (k: nat)
    requires IsMerge(definitions, o, entries) && StaysUntouched(definitions, o, i)
    ensures k < |entries| && entries[k] == Entry(definitions[i].name, PrintBody(definitions[i]))
  {
    PrintedBody(definitions, i);
    k := LookupFindsAnEntry(entries, definitions[i].name);
  }

  /** An untouched strategy is accepted again. */
  ghost predicate StrategyParses(doc: Document, base: Option<Text>, i: nat) {
    i < |doc.entries| && Reparse.StillParses(PolicyFields(doc.entries[i].body), base, DefaultName(doc))
  }

  predicate WorkflowParses(w: Workflow, base: Option<Text>, strategy: string) {
    ParseDefinition(Entry(w.name, Installed(w)), base, strategy).Ok?
  }

  /** The result of a merge is accepted: something is left, every untouched strategy is accepted again, and so is every workflow. */
  ghost predicate MergeParses(doc: Document, base: Option<Text>, o: Overlay)
    requires ParseStrategies(doc, base).Ok?
  {
    var definitions := ParseStrategies(doc, base).value.definitions;
    && (o.workflows != [] || exists i :: StaysUntouched(definitions, o, i))
    && (forall i :: StaysUntouched(definitions, o, i) ==> StrategyParses(doc, base, i))
    && (forall j :: 0 <= j < |o.workflows| ==> WorkflowParses(o.workflows[j], base, DefaultName(doc)))
  }

  lemma UntouchedParsesIff(doc: Document, base: Option<Text>, top: map<string, Json>, i: nat)
    requires Reprint.IsBaseline(base, top) && ParseStrategies(doc, base).Ok? && i < |ParseStrategies(doc, base).value.definitions|
    ensures var d := ParseStrategies(doc, base).value.definitions[i];
      var again := ParseDefinition(Entry(d.name, PrintBody(d)), base, DefaultName(doc));
      && i < |doc.entries|
      && (again.Ok? <==> StrategyParses(doc, base, i))
      && (again.Ok? ==> again == Ok(TrimmedDefinition(d)))
      && (again == Ok(NormalDefinition(d)) <==> Reprint.NothingLost(PolicyFields(doc.entries[i].body), base, DefaultName(doc)))
  {
    DocumentEntries(doc, base);
    DefinitionRoundTripIff(doc.entries[i], base, top, DefaultName(doc));
  }

  lemma AllEntriesParse(doc: Document, base: Option<Text>, top: map<string, Json>, o: Overlay, entries: seq<Entry>, k: nat)
    requires Reprint.IsBaseline(base, top) && ParseStrategies(doc, base).Ok? && MergeParses(doc, base, o)
    requires IsMerge(ParseStrategies(doc, base).value.definitions, o, entries) && k < |entries|
    ensures ParseDefinition(entries[k], base, DefaultName(doc)).Ok?
  {
    var definitions := ParseStrategies(doc, base).value.definitions;
    var j, i := EntryIs(definitions, o, entries, k);
    if j < |o.workflows| && entries[k] == Entry(o.workflows[j].name, Installed(o.workflows[j])) {
      assert WorkflowParses(o.workflows[j], base, DefaultName(doc));
    } else {
      UntouchedParsesIff(doc, base, top, i);
    }
  }

  lemma SomethingIsLeft(definitions: seq<Definition>, o: Overlay, entries: seq<Entry>)
    requires IsMerge(definitions, o, entries)
    ensures entries != [] <==> o.workflows != [] || exists i :: StaysUntouched(definitions, o, i)
  {
    if entries != [] {
      var j, i := EntryIs(definitions, o, entries, 0);
    } else if i :| StaysUntouched(definitions, o, i) {
      var k := UntouchedEntry(definitions, o, entries, i);
    } else if o.workflows != [] {
      var k := LookupFindsAnEntry(entries, o.workflows[0].name);
    }
  }

  /** A wrapped document with this default is accepted exactly when it has entries and each of them is. */
  lemma WrappedParsesIff(doc: Document, base: Option<Text>, entries: seq<Entry>)
    requires ParseStrategies(doc, base).Ok?
    ensures var again := ParseStrategies(Wrapped(Some(DefaultName(doc)), entries), base);
      && (again.Ok? <==> entries != [] && forall k :: 0 <= k < |entries| ==> ParseDefinition(entries[k], base, DefaultName(doc)).Ok?)
      && (again.Ok? ==>
            && again.value.defaultStrategy == DefaultName(doc) && |again.value.definitions| == |entries|
            && forall k :: 0 <= k < |entries| ==> ParseDefinition(entries[k], base, DefaultName(doc)) == Ok(again.value.definitions[k]))
  {
    DefaultNameKept(doc);
    Gathered(Each(entries, Parser(base, DefaultName(doc))));
  }

  /**
   A merged document is accepted if and only if something is left, every strategy the overlay
   leaves alone relied on nothing that printing loses but space around an inherited tag, and every
   workflow is accepted by itself. One strategy that is refused takes all of them with it.
   */
  lemma MergedAcceptedIff(doc: Document, base: Option<Text>, top: map<string, Json>, o: Overlay, entries: seq<Entry>)
    requires Reprint.IsBaseline(base, top) && ParseStrategies(doc, base).Ok?
    requires IsMerge(ParseStrategies(doc, base).value.definitions, o, entries)
    ensures ParseStrategies(Wrapped(Some(DefaultName(doc)), entries), base).Ok? <==> MergeParses(doc, base, o)
  {
    var definitions := ParseStrategies(doc, base).value.definitions;
    WrappedParsesIff(doc, base, entries);
    SomethingIsLeft(definitions, o, entries);
    if MergeParses(doc, base, o) {
      forall k | 0 <= k < |entries| ensures ParseDefinition(entries[k], base, DefaultName(doc)).Ok? {
        AllEntriesParse(doc, base, top, o, entries, k);
      }
    }
    if forall k :: 0 <= k < |entries| ==> ParseDefinition(entries[k], base, DefaultName(doc)).Ok? {
      forall i | StaysUntouched(definitions, o, i) ensures StrategyParses(doc, base, i) {
        UntouchedParsesIff(doc, base, top, i);
        var k := UntouchedEntry(definitions, o, entries, i);
      }
      forall j | 0 <= j < |o.workflows| ensures WorkflowParses(o.workflows[j], base, DefaultName(doc)) {
        var k := LookupFindsAnEntry(entries, o.workflows[j].name);
      }
    }
  }

  /**
   A strategy that a merge neither defines nor deletes: when the merged document is accepted, it is
   there as it was, if its document relied on nothing that printing loses, and otherwise without
   the space around its inherited tags. When it would be refused, so is the merged document.
   */
  lemma UntouchedIff(doc: Document, base: Option<Text>, top: map<string, Json>, o: Overlay, entries: seq<Entry>, i: nat) returns (k: nat)
    requires Reprint.IsBaseline(base, top) && ParseStrategies(doc, base).Ok?
    requires IsMerge(ParseStrategies(doc, base).value.definitions, o, entries)
    requires StaysUntouched(ParseStrategies(doc, base).value.definitions, o, i)
    ensures k < |entries| && i < |doc.entries|
    ensures var d := ParseStrategies(doc, base).value.definitions[i];
      var after := ParseStrategies(Wrapped(Some(DefaultName(doc)), entries), base);
      && (!StrategyParses(doc, base, i) ==> after.Err?)
      && (after.Ok? ==>
            && k < |after.value.definitions| && after.value.definitions[k] == TrimmedDefinition(d)
            && (after.value.definitions[k] == NormalDefinition(d)
                <==> Reprint.NothingLost(PolicyFields(doc.entries[i].body), base, DefaultName(doc))))
  {
    var definitions := ParseStrategies(doc, base).value.definitions;
    k := UntouchedEntry(definitions, o, entries, i);
    UntouchedParsesIff(doc, base, top, i);
    WrappedParsesIff(doc, base, entries);
  }

  /** Strategy i of the baseline is untouched and relied on nothing that printing loses. */
  ghost predicate Kept(doc: Document, base: Option<Text>, o: Overlay, i: nat)
    requires ParseStrategies(doc, base).Ok?
  {
    && i < |doc.entries| && StaysUntouched(ParseStrategies(doc, base).value.definitions, o, i)
    && Reprint.NothingLost(PolicyFields(doc.entries[i].body), base, DefaultName(doc))
  }

  /**
   A whole reload: the baseline is parsed, merged with the overlay and parsed again. Whatever it
   defines or deletes, an untouched strategy that relied on nothing printing loses is there
   afterwards, as it was. The baseline is loaded instead exactly when the overlay cannot be merged
   or the merged document is refused, here or by the rest of the catalog (`valid`); an overlay
   does not keep it offline.
   */
  method Reload(
      doc: Document, base: Option<Text>, ghost top: map<string, Json>, profiles: seq<Profile>, o: Overlay, around: Surroundings, valid: bool)
    returns (r: Result<Parsed, Refused>, models: seq<Profile>, fellBack: bool)
    requires Reprint.IsBaseline(base, top) && WellShaped(o) && around.models == Ids(profiles)
    ensures r.Ok? <==> ParseStrategies(doc, base).Ok?
    ensures r.Ok? ==>
      (fellBack <==> !(valid && MergeParses(doc, base, o)
                       && Acceptable(PrintAll(ParseStrategies(doc, base).value.definitions), DefaultName(doc), o, around)))
    ensures fellBack || ParseStrategies(doc, base).Err? ==> r == ParseStrategies(doc, base) && models == profiles
    ensures r.Ok? && !fellBack ==> AllTuned(profiles, o.tunings, models)
    ensures r.Ok? ==> r.value.defaultStrategy == DefaultName(doc)
    ensures r.Ok? ==> forall i :: 0 <= i < |doc.entries| && Kept(doc, base, o, i) ==>
              var before := ParseStrategies(doc, base).value.definitions[i];
              (if fellBack then before else NormalDefinition(before)) in r.value.definitions
  {
    var before := StrategiesFromDocument(doc, base);
    if before.Err? {
      return before, profiles, true;
    }
    var merged := MergeOverlay(before.value.definitions, before.value.defaultStrategy, profiles, o, around);
    if merged.Err? {
      return before, profiles, true;
    }
    r := StrategiesFromDocument(merged.value.document, base);
    ghost var entries := merged.value.document.entries;
    assert merged.value.document == Wrapped(Some(before.value.defaultStrategy), entries);
    MergedAcceptedIff(doc, base, top, o, entries);
    if r.Err? || !valid {
      return before, profiles, true;
    }
    WrappedParsesIff(doc, base, entries);
    forall i | 0 <= i < |doc.entries| && Kept(doc, base, o, i)
      ensures NormalDefinition(before.value.definitions[i]) in r.value.definitions
    {
      var k := UntouchedIff(doc, base, top, o, entries, i);
      assert r.value.definitions[k] == NormalDefinition(before.value.definitions[i]);
    }
    models := merged.value.profiles;
    fellBack := false;
  }
}
