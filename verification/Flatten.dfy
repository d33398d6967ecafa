/** Inlining nested stacks into one flat template (cfn/nested.go). */
module Flatten {
  import opened Wrappers
  import opened Expressions
  import opened Nested
  import Text

  datatype DependsOn = Absent | One(name: string) | Many(names: seq<string>) | Malformed

  datatype Resource = Resource(kind: string, properties: Value, dependsOn: DependsOn, conditional: bool, policy: string)

  /** A child template; a parameter carries its Default, if any. */
  datatype Child = Child(
    transform: bool,
    conditions: nat,
    mappings: nat,
    parameters: map<string, Option<Value>>,
    resources: map<string, Resource>,
    outputs: map<string, Value>)

  datatype Parent = Parent(resources: map<string, Resource>, outputs: map<string, Value>)

  type Fetch = map<string, Child>

  const StackKind: string := "AWS::CloudFormation::Stack"

  // ---------------------------------------------------------------- one stack

  function Url(r: Resource): string {
    if r.properties.Object? && "TemplateURL" in r.properties.fields && r.properties.fields["TemplateURL"].Text?
    then r.properties.fields["TemplateURL"].s else ""
  }

  function Given(r: Resource): map<string, Value> {
    if r.properties.Object? && "Parameters" in r.properties.fields && r.properties.fields["Parameters"].Object?
    then r.properties.fields["Parameters"].fields else map[]
  }

  predicate Fetches(r: Resource, fetch: Fetch) {
    Url(r) != "" && Url(r) in fetch
  }

  /** The constructs refused before anything is rewritten. */
  predicate Supported(child: Child) {
    && !child.transform && child.conditions == 0 && child.mappings == 0
    && child.resources != map[]
    && forall rid :: rid in child.resources ==> child.resources[rid].kind != StackKind
  }

  predicate Bindable(child: Child, given: map<string, Value>) {
    forall p :: p in child.parameters ==> p in given || child.parameters[p].Some?
  }

  /** A parameter's value: what the parent passes, else its Default. */
  function Binding(child: Child, given: map<string, Value>, p: string): Value
    requires p in child.parameters && (p in given || child.parameters[p].Some?)
  {
    if p in given then given[p] else child.parameters[p].value
  }

  ghost function Bindings(child: Child, given: map<string, Value>): (b: map<string, Value>)
    requires Bindable(child, given)
    ensures b.Keys == child.parameters.Keys
  {
    map p | p in child.parameters :: Binding(child, given, p)
  }

  function RewriteDependsOn(c: Ctx, d: DependsOn): Option<DependsOn> {
    match d
    case Absent => Some(Absent)
    case One(name) => if name in c.ids then Some(One(c.stack + name)) else None
    case Many(names) =>
      if forall i :: 0 <= i < |names| ==> names[i] in c.ids then Some(Many(seq(|names|, i requires 0 <= i < |names| => c.stack + names[i])))
      else None
    case Malformed => None
  }

  /** `rewriteResource`. */
  function RewriteResource(c: Ctx, r: Resource): Option<Resource> {
    if r.conditional then None
    else
      var properties, dependsOn := RewriteValue(c, r.properties), RewriteDependsOn(c, r.dependsOn);
      if properties.Some? && dependsOn.Some? then Some(r.(properties := properties.value, dependsOn := dependsOn.value)) else None
  }

  ghost predicate Rewritable(c: Ctx, child: Child) {
    && (forall rid :: rid in child.resources ==> RewriteResource(c, child.resources[rid]).Some?)
    && (forall k :: k in child.outputs ==> RewriteValue(c, child.outputs[k]).Some?)
  }

  ghost function ContextOf(s: string, r: Resource, child: Child, show: Shower): Ctx
    requires Bindable(child, Given(r))
  {
    Ctx(s, child.resources.Keys, Bindings(child, Given(r)), show)
  }

  /** Everything about stack `s` is in order, apart from what its ids collide with. */
  ghost predicate Fine(s: string, r: Resource, fetch: Fetch, show: Shower) {
    && Fetches(r, fetch)
    && var child := fetch[Url(r)];
      Supported(child) && Bindable(child, Given(r)) && Rewritable(ContextOf(s, r, child, show), child)
  }

  predicate Clashes(s: string, ids: set<string>, taken: set<string>) {
    exists rid :: rid in ids && s + rid in taken
  }

  function Prefixed(s: string, ids: set<string>): set<string> {
    set rid | rid in ids :: s + rid
  }

  /** The child's resources, rewritten, stand beside what was there. */
  ghost predicate Inlined(c: Ctx, child: Child, before: map<string, Resource>, after: map<string, Resource>) {
    && after.Keys == before.Keys + Prefixed(c.stack, child.resources.Keys)
    && (forall id :: id in before ==> id in after && after[id] == before[id])
    && (forall rid :: rid in child.resources ==>
      c.stack + rid in after && RewriteResource(c, child.resources[rid]) == Some(after[c.stack + rid]))
  }

  ghost predicate Exposed(c: Ctx, child: Child, outs: map<string, Value>) {
    && outs.Keys == child.outputs.Keys
    && forall k :: k in outs ==> RewriteValue(c, child.outputs[k]) == Some(outs[k])
  }

  // ---------------------------------------------------------------- what is carried over beside the properties

  /** The resource names `x` in its DependsOn. */
  ghost predicate Waits(r: Resource, x: string) {
    match r.dependsOn
    case One(name) => x == name
    case Many(names) => x in names
    case _ => false
  }

  /** `r` is the child's resource under its prefixed id: of the same type and policy, without a Condition, and
      depending on exactly the prefixed ids of what the child's resource names, resources of the child all. */
  ghost predicate CarriedAs(s: string, child: Child, rid: string, r: Resource)
    requires rid in child.resources
  {
    var was := child.resources[rid];
    && r.kind == was.kind && r.policy == was.policy && !r.conditional && !was.conditional
    && (forall d :: Waits(was, d) ==> d in child.resources && Waits(r, s + d))
    && (forall x :: Waits(r, x) ==> exists d :: Waits(was, d) && x == s + d)
  }

  ghost predicate AllCarried(s: string, child: Child, resources: map<string, Resource>) {
    forall rid :: rid in child.resources ==> s + rid in resources && CarriedAs(s, child, rid, resources[s + rid])
  }

  lemma RewriteCarries(c: Ctx, child: Child, rid: string, r: Resource)
    requires c.ids == child.resources.Keys && rid in child.resources && RewriteResource(c, child.resources[rid]) == Some(r)
    ensures CarriedAs(c.stack, child, rid, r)
  {
    hide RewriteValue;
    var was := child.resources[rid];
    if was.dependsOn.Many? {
      var names, out := was.dependsOn.names, r.dependsOn.names;
      forall d | d in names ensures d in child.resources && c.stack + d in out {
        var i :| 0 <= i < |names| && names[i] == d;
        assert out[i] == c.stack + d;
      }
      forall x | x in out ensures exists d :: d in names && x == c.stack + d {
        var i :| 0 <= i < |out| && out[i] == x;
        assert names[i] in names;
      }
    }
  }

  lemma InlinedCarries(c: Ctx, child: Child, before: map<string, Resource>, after: map<string, Resource>)
    requires c.ids == child.resources.Keys && Inlined(c, child, before, after)
    ensures AllCarried(c.stack, child, after)
  {
    hide RewriteResource, CarriedAs;
    forall rid | rid in child.resources ensures c.stack + rid in after && CarriedAs(c.stack, child, rid, after[c.stack + rid]) {
      RewriteCarries(c, child, rid, after[c.stack + rid]);
    }
  }

  /** Everything but properties is carried into the flat template: a plain resource's as it was, a child's
      under prefixed ids. */
  ghost predicate SameOrder(parent: Parent, fetch: Fetch, flat: Parent) {
    && (forall id :: id in parent.resources && parent.resources[id].kind != StackKind ==>
          id in flat.resources && flat.resources[id].(properties := Null) == parent.resources[id].(properties := Null))
    && (forall s :: s in parent.resources && parent.resources[s].kind == StackKind ==>
          Fetches(parent.resources[s], fetch) && AllCarried(s, ChildOf(parent, fetch, s), flat.resources))
  }

  lemma FlatKeepsOrder(parent: Parent, fetch: Fetch, show: Shower, flat: Parent)
    requires FlatOf(parent, fetch, show, Some(flat))
    ensures SameOrder(parent, fetch, flat)
  {
    hide Stage, Stacks, RewriteTemplate, SameOrder, SameButProperty;
    StacksAre(parent);
    assert Compatible(parent, fetch, show, Stacks(parent));
    var resources: map<string, Resource>, outs: Outs :|
      Stage(parent, fetch, show, Stacks(parent), resources, outs) && Some(flat) == RewriteTemplate(outs, resources, parent.outputs, show);
    TemplateCarries(outs, resources, parent.outputs, show, flat);
    StageCarries(parent, fetch, show, resources, outs, flat);
  }

  ghost predicate SameButProperty(before: map<string, Resource>, after: map<string, Resource>) {
    forall id :: id in before ==> id in after && after[id].(properties := Null) == before[id].(properties := Null)
  }

  lemma StacksAre(parent: Parent)
    ensures forall s :: s in Stacks(parent) <==> s in parent.resources && parent.resources[s].kind == StackKind
  {
  }

  lemma TemplateCarries(outs: Outs, resources: map<string, Resource>, outputs: map<string, Value>, show: Shower, flat: Parent)
    requires Some(flat) == RewriteTemplate(outs, resources, outputs, show)
    ensures SameButProperty(resources, flat.resources)
  {
    hide RewriteOutputs;
  }

  lemma StageCarries(parent: Parent, fetch: Fetch, show: Shower, resources: map<string, Resource>, outs: Outs, flat: Parent)
    requires Stage(parent, fetch, show, Stacks(parent), resources, outs) && SameButProperty(resources, flat.resources)
    ensures SameOrder(parent, fetch, flat)
  {
    hide Placed, AllCarried, BroughtBy, SameButProperty, Fetches;
    forall s | s in Stacks(parent) ensures Fetches(parent.resources[s], fetch) && AllCarried(s, ChildOf(parent, fetch, s), flat.resources) {
      PlacedCarries(parent, fetch, show, s, resources, outs[s], flat.resources);
    }
    forall id | id in parent.resources && parent.resources[id].kind != StackKind
      ensures id in flat.resources && flat.resources[id].(properties := Null) == parent.resources[id].(properties := Null)
    {
      KeptCarries(resources, flat.resources, id);
    }
  }

  lemma KeptCarries(before: map<string, Resource>, after: map<string, Resource>, id: string)
    requires SameButProperty(before, after) && id in before
    ensures id in after && after[id].(properties := Null) == before[id].(properties := Null)
  {
  }

  lemma PlacedCarries(parent: Parent, fetch: Fetch, show: Shower, s: string, resources: map<string, Resource>, outs: map<string, Value>,
                      flat: map<string, Resource>)
    requires Placed(parent, fetch, show, s, resources, outs)
    requires SameButProperty(resources, flat)
    ensures s in parent.resources && Fetches(parent.resources[s], fetch) && AllCarried(s, ChildOf(parent, fetch, s), flat)
  {
    hide RewriteResource, Exposed, Rewritable;
    var c, child := CtxIn(parent, fetch, show, s), ChildOf(parent, fetch, s);
    forall rid | rid in child.resources ensures s + rid in flat && CarriedAs(s, child, rid, flat[s + rid]) {
      RewriteCarries(c, child, rid, resources[s + rid]);
      SameButProperties(s, child, rid, resources[s + rid], flat[s + rid]);
    }
  }

  lemma SameButProperties(s: string, child: Child, rid: string, r: Resource, r': Resource)
    requires rid in child.resources && CarriedAs(s, child, rid, r) && r'.(properties := Null) == r.(properties := Null)
    ensures CarriedAs(s, child, rid, r')
  {
    assert r'.kind == r.kind && r'.policy == r.policy && r'.conditional == r.conditional && r'.dependsOn == r.dependsOn by {
      assert r'.(properties := Null).kind == r'.kind && r.(properties := Null).kind == r.kind;
    }
    assert forall x :: Waits(r', x) == Waits(r, x);
  }

  method BindParameters(child: Child, given: map<string, Value>) returns (bound: Option<map<string, Value>>)
    ensures bound.Some? <==> Bindable(child, given)
    ensures bound.Some? ==> bound.value == Bindings(child, given)
    ensures (exists q :: q in child.parameters && q !in given && child.parameters[q].None?) ==> bound.None?
    ensures bound.Some? ==> bound.value.Keys == child.parameters.Keys
    ensures bound.Some? ==> forall q :: q in child.parameters ==>
              bound.value[q] == if q in given then given[q] else child.parameters[q].value
  {
    var params := map[];
    var todo := child.parameters.Keys;
    while todo != {}
      invariant todo <= child.parameters.Keys && params.Keys == child.parameters.Keys - todo
      invariant forall p :: p in params ==> (p in given || child.parameters[p].Some?) && params[p] == Binding(child, given, p)
    {
      var p :| p in todo;
      if p !in given && child.parameters[p].None? {
        return None;
      }
      params := params[p := Binding(child, given, p)];
      todo := todo - {p};
    }
    assert params == Bindings(child, given);
    bound := Some(params);
  }

  method MergeResources(c: Ctx, child: Child, before: map<string, Resource>) returns (after: Option<map<string, Resource>>)
    requires c.ids == child.resources.Keys && !Clashes(c.stack, c.ids, before.Keys)
    ensures after.Some? <==> forall rid :: rid in child.resources ==> RewriteResource(c, child.resources[rid]).Some?
    ensures after.Some? ==> Inlined(c, child, before, after.value)
  {
    hide RewriteResource;
    var resources := before;
    var todo := child.resources.Keys;
    while todo != {}
      invariant todo <= child.resources.Keys
      invariant resources.Keys == before.Keys + Prefixed(c.stack, child.resources.Keys - todo)
      invariant forall id :: id in before ==> resources[id] == before[id]
      invariant forall rid :: rid in child.resources.Keys - todo ==>
        c.stack + rid in resources && RewriteResource(c, child.resources[rid]) == Some(resources[c.stack + rid])
    {
      var rid :| rid in todo;
      var rewritten := RewriteResource(c, child.resources[rid]);
      if rewritten.None? {
        return None;
      }
      ghost var was := resources;
      resources := resources[c.stack + rid := rewritten.value];
      forall other | other in child.resources.Keys && other != rid ensures c.stack + other != c.stack + rid {
        assert (c.stack + other)[|c.stack|..] == other && (c.stack + rid)[|c.stack|..] == rid;
      }
      assert child.resources.Keys - (todo - {rid}) == (child.resources.Keys - todo) + {rid};
      todo := todo - {rid};
    }
    assert child.resources.Keys - {} == child.resources.Keys;
    after := Some(resources);
  }

  method ExposeOutputs(c: Ctx, child: Child) returns (outs: Option<map<string, Value>>)
    ensures outs.Some? <==> forall k :: k in child.outputs ==> RewriteValue(c, child.outputs[k]).Some?
    ensures outs.Some? ==> Exposed(c, child, outs.value)
  {
    hide RewriteValue;
    var exposed := map[];
    var todo := child.outputs.Keys;
    while todo != {}
      invariant todo <= child.outputs.Keys && exposed.Keys == child.outputs.Keys - todo
      invariant forall k :: k in exposed ==> RewriteValue(c, child.outputs[k]) == Some(exposed[k])
    {
      var k :| k in todo;
      var rewritten := RewriteValue(c, child.outputs[k]);
      if rewritten.None? {
        return None;
      }
      exposed := exposed[k := rewritten.value];
      todo := todo - {k};
    }
    outs := Some(exposed);
  }

  lemma AcceptedIs(s: string, child: Child, resources: map<string, Resource>)
    requires Supported(child) && !Clashes(s, child.resources.Keys, resources.Keys)
    ensures !child.transform && child.conditions == 0 && child.mappings == 0 && child.resources != map[]
    ensures forall rid :: rid in child.resources ==> child.resources[rid].kind != StackKind && s + rid !in resources
  {
  }

  datatype Inlining = Inlining(resources: map<string, Resource>, outs: map<string, Value>)

  /** `inlineOneStack`: refuses exactly what it cannot rewrite, and otherwise merges the whole child. */
  method InlineOneStack(s: string, r: Resource, resources: map<string, Resource>, fetch: Fetch, show: Shower)
    returns (result: Option<Inlining>)
    ensures result.Some? <==> Fine(s, r, fetch, show) && !Clashes(s, fetch[Url(r)].resources.Keys, resources.Keys)
    ensures result.Some? ==>
      var c := ContextOf(s, r, fetch[Url(r)], show);
      Inlined(c, fetch[Url(r)], resources, result.value.resources) && Exposed(c, fetch[Url(r)], result.value.outs)
    ensures result.Some? ==> AllCarried(s, fetch[Url(r)], result.value.resources)
    ensures result.Some? ==>
      var child := fetch[Url(r)];
      && !child.transform && child.conditions == 0 && child.mappings == 0 && child.resources != map[]
      && forall rid :: rid in child.resources ==> child.resources[rid].kind != StackKind && s + rid !in resources
  {
    if !Fetches(r, fetch) {
      return None;
    }
    var child := fetch[Url(r)];
    if !Supported(child) {
      return None;
    }
    hide Inlined, Exposed, RewriteResource, RewriteValue, Clashes, Supported, Fetches, Binding, AllCarried;
    var params := BindParameters(child, Given(r));
    if params.None? {
      return None;
    }
    if Clashes(s, child.resources.Keys, resources.Keys) {
      return None;
    }
    var c := Ctx(s, child.resources.Keys, params.value, show);
    var merged := MergeResources(c, child, resources);
    if merged.None? {
      return None;
    }
    var outs := ExposeOutputs(c, child);
    if outs.None? {
      return None;
    }
    InlinedCarries(c, child, resources, merged.value);
    AcceptedIs(s, child, resources);
    result := Some(Inlining(merged.value, outs.value));
  }

  // ---------------------------------------------------------------- the whole template

  function Stacks(parent: Parent): set<string> {
    set id | id in parent.resources && parent.resources[id].kind == StackKind
  }

  predicate Sorted(names: seq<string>) {
    forall i, j :: 0 <= i < j < |names| ==> Text.Less(names[i], names[j])
  }

  /** `sort.Strings` on the stack ids, by insertion. */
  method SortedNames(ids: set<string>) returns (names: seq<string>)
    ensures Sorted(names) && (set n | n in names) == ids
  {
    names := [];
    var todo := ids;
    while todo != {}
      invariant todo <= ids && Sorted(names) && (set n | n in names) == ids - todo
    {
      var x :| x in todo;
      names := InsertName(names, x);
      todo := todo - {x};
    }
  }

  method InsertName(names: seq<string>, x: string) returns (out: seq<string>)
    requires Sorted(names) && x !in names
    ensures Sorted(out) && (set n | n in out) == (set n | n in names) + {x}
  {
    var i := 0;
    while i < |names| && Text.Less(names[i], x)
      invariant i <= |names| && forall j :: 0 <= j < i ==> Text.Less(names[j], x)
    {
      i := i + 1;
    }
    forall j | i <= j < |names| ensures Text.Less(x, names[j]) {
      Text.Total(names[i], x);
      if i < j {
        Text.Transitive(x, names[i], names[j]);
      }
    }
    out := names[..i] + [x] + names[i..];
    assert names == names[..i] + names[i..];
  }

  /** A prefix sorts first: an id made by prefixing never equals a stack already inlined. */
  lemma {:induction false} PrefixSortsFirst(s: string, rid: string)
    ensures !Text.Less(s + rid, s)
  {
    if s != [] {
      PrefixSortsFirst(s[1..], rid);
      assert (s + rid)[1..] == s[1..] + rid;
    }
  }

  ghost function ChildOf(parent: Parent, fetch: Fetch, s: string): Child
    requires s in parent.resources && Fetches(parent.resources[s], fetch)
  {
    fetch[Url(parent.resources[s])]
  }

  ghost predicate FineIn(parent: Parent, fetch: Fetch, show: Shower, s: string) {
    s in parent.resources && Fine(s, parent.resources[s], fetch, show)
  }

  ghost function CtxIn(parent: Parent, fetch: Fetch, show: Shower, s: string): Ctx
    requires FineIn(parent, fetch, show, s)
  {
    ContextOf(s, parent.resources[s], ChildOf(parent, fetch, s), show)
  }

  /** The ids stack `s` brings in. */
  ghost function Brings(parent: Parent, fetch: Fetch, s: string): set<string> {
    if s in parent.resources && Fetches(parent.resources[s], fetch)
    then Prefixed(s, ChildOf(parent, fetch, s).resources.Keys) else {}
  }

  /** Each stack of `done` is in order; its ids meet neither the parent's nor another stack's. */
  ghost predicate Compatible(parent: Parent, fetch: Fetch, show: Shower, done: set<string>) {
    && (forall s :: s in done ==> FineIn(parent, fetch, show, s) && Brings(parent, fetch, s) !! parent.resources.Keys)
    && (forall s, t :: s in done && t in done && s != t ==> Brings(parent, fetch, s) !! Brings(parent, fetch, t))
  }

  /** The working maps once the stacks of `done` are inlined. */
  ghost predicate Stage(parent: Parent, fetch: Fetch, show: Shower, done: set<string>, resources: map<string, Resource>, outs: Outs) {
    && resources.Keys == (parent.resources.Keys - done) + BroughtBy(parent, fetch, done)
    && Kept(parent, done, resources)
    && AllPlaced(parent, fetch, show, done, resources, outs)
  }

  ghost predicate Kept(parent: Parent, done: set<string>, resources: map<string, Resource>) {
    forall id :: id in parent.resources && id !in done ==> id in resources && resources[id] == parent.resources[id]
  }

  ghost predicate AllPlaced(parent: Parent, fetch: Fetch, show: Shower, done: set<string>, resources: map<string, Resource>, outs: Outs) {
    outs.Keys == done && forall s :: s in done ==> Placed(parent, fetch, show, s, resources, outs[s])
  }

  ghost predicate Placed(parent: Parent, fetch: Fetch, show: Shower, s: string, resources: map<string, Resource>, outs: map<string, Value>) {
    && FineIn(parent, fetch, show, s)
    && var c, child := CtxIn(parent, fetch, show, s), ChildOf(parent, fetch, s);
      Exposed(c, child, outs)
      && forall rid :: rid in child.resources ==>
        s + rid in resources && RewriteResource(c, child.resources[rid]) == Some(resources[s + rid])
  }

  ghost function BroughtBy(parent: Parent, fetch: Fetch, done: set<string>): set<string> {
    set s, id | s in done && id in Brings(parent, fetch, s) :: id
  }

  lemma BroughtGrows(parent: Parent, fetch: Fetch, done: set<string>, s: string)
    ensures BroughtBy(parent, fetch, done + {s}) == BroughtBy(parent, fetch, done) + Brings(parent, fetch, s)
  {
    hide Brings;
  }

  lemma BroughtIsNew(parent: Parent, fetch: Fetch, show: Shower, done: set<string>)
    requires Compatible(parent, fetch, show, done)
    ensures BroughtBy(parent, fetch, done) !! parent.resources.Keys
  {
    hide Brings, FineIn;
  }

  /** `rewriteOutputRefs` over the merged template. */
  function RewriteTemplate(outs: Outs, resources: map<string, Resource>, outputs: map<string, Value>, show: Shower): Option<Parent> {
    if (forall id :: id in resources ==> RewriteOutputs(outs, resources[id].properties, show).Some?)
      && (forall k :: k in outputs ==> RewriteOutputs(outs, outputs[k], show).Some?)
    then Some(Parent(
      map id | id in resources :: resources[id].(properties := RewriteOutputs(outs, resources[id].properties, show).value),
      map k | k in outputs :: RewriteOutputs(outs, outputs[k], show).value))
    else None
  }

  ghost predicate Adds(parent: Parent, fetch: Fetch, show: Shower, s: string, resources: map<string, Resource>, added: Inlining) {
    && FineIn(parent, fetch, show, s)
    && Inlined(CtxIn(parent, fetch, show, s), ChildOf(parent, fetch, s), resources, added.resources)
    && Exposed(CtxIn(parent, fetch, show, s), ChildOf(parent, fetch, s), added.outs)
  }

  lemma AddsFacts(parent: Parent, fetch: Fetch, show: Shower, s: string, resources: map<string, Resource>, added: Inlining)
    requires Adds(parent, fetch, show, s, resources, added)
    ensures added.resources.Keys == resources.Keys + Brings(parent, fetch, s)
    ensures forall id :: id in resources ==> id in added.resources && added.resources[id] == resources[id]
  {
    hide Exposed, RewriteResource;
  }

  /** One more stack inlined and its own entry deleted. */
  lemma StageGrows(parent: Parent, fetch: Fetch, show: Shower, done: set<string>, s: string,
                   resources: map<string, Resource>, outs: Outs, added: Inlining)
    requires Stage(parent, fetch, show, done, resources, outs) && Adds(parent, fetch, show, s, resources, added)
    requires s in parent.resources && s !in done && Compatible(parent, fetch, show, done + {s})
    ensures Stage(parent, fetch, show, done + {s}, added.resources - {s}, outs[s := added.outs])
  {
    hide Compatible, Adds, Kept, AllPlaced, BroughtBy;
    GrowsKeys(parent, fetch, show, done, s, resources, outs, added);
    GrowsKept(parent, fetch, show, done, s, resources, outs, added);
    GrowsPlaced(parent, fetch, show, done, s, resources, outs, added);
  }

  lemma CompatibleFacts(parent: Parent, fetch: Fetch, show: Shower, done: set<string>, s: string)
    requires Compatible(parent, fetch, show, done + {s}) && s in parent.resources
    ensures Brings(parent, fetch, s) !! parent.resources.Keys
    ensures BroughtBy(parent, fetch, done) !! parent.resources.Keys
    ensures forall t :: t in done ==> s !in Brings(parent, fetch, t)
  {
    hide Brings, FineIn;
    BroughtGrows(parent, fetch, done, s);
    BroughtIsNew(parent, fetch, show, done + {s});
    assert s in done + {s} && forall t :: t in done ==> t in done + {s};
  }

  lemma GrowsKeys(parent: Parent, fetch: Fetch, show: Shower, done: set<string>, s: string,
                  resources: map<string, Resource>, outs: Outs, added: Inlining)
    requires Stage(parent, fetch, show, done, resources, outs) && Adds(parent, fetch, show, s, resources, added)
    requires s in parent.resources && s !in done && Compatible(parent, fetch, show, done + {s})
    ensures (added.resources - {s}).Keys == (parent.resources.Keys - (done + {s})) + BroughtBy(parent, fetch, done + {s})
  {
    hide Compatible, Brings, BroughtBy, Adds, Kept, AllPlaced;
    AddsFacts(parent, fetch, show, s, resources, added);
    CompatibleFacts(parent, fetch, show, done, s);
    BroughtGrows(parent, fetch, done, s);
    KeysAfter(parent.resources.Keys, done, BroughtBy(parent, fetch, done), Brings(parent, fetch, s), s);
  }

  lemma GrowsKept(parent: Parent, fetch: Fetch, show: Shower, done: set<string>, s: string,
                  resources: map<string, Resource>, outs: Outs, added: Inlining)
    requires Stage(parent, fetch, show, done, resources, outs) && Adds(parent, fetch, show, s, resources, added)
    ensures Kept(parent, done + {s}, added.resources - {s})
  {
    hide Brings, BroughtBy, Adds, AllPlaced;
    AddsFacts(parent, fetch, show, s, resources, added);
  }

  lemma GrowsPlaced(parent: Parent, fetch: Fetch, show: Shower, done: set<string>, s: string,
                    resources: map<string, Resource>, outs: Outs, added: Inlining)
    requires Stage(parent, fetch, show, done, resources, outs) && Adds(parent, fetch, show, s, resources, added)
    requires s in parent.resources && s !in done && Compatible(parent, fetch, show, done + {s})
    ensures AllPlaced(parent, fetch, show, done + {s}, added.resources - {s}, outs[s := added.outs])
  {
    hide Brings, BroughtBy, Adds, Kept, Placed, Compatible;
    var after := added.resources - {s};
    AddsFacts(parent, fetch, show, s, resources, added);
    CompatibleFacts(parent, fetch, show, done, s);
    SelfPlaced(parent, fetch, show, s, resources, added);
    forall t | t in done ensures Placed(parent, fetch, show, t, after, outs[t]) {
      PlacedStays(parent, fetch, show, t, resources, outs[t], after, s);
    }
  }

  lemma KeysAfter(all: set<string>, done: set<string>, brought: set<string>, more: set<string>, s: string)
    requires s in all && s !in done && brought !! all && more !! all
    ensures ((all - done) + brought + more) - {s} == (all - (done + {s})) + (brought + more)
  {}

  lemma SelfPlaced(parent: Parent, fetch: Fetch, show: Shower, s: string, resources: map<string, Resource>, added: Inlining)
    requires Adds(parent, fetch, show, s, resources, added) && Brings(parent, fetch, s) !! parent.resources.Keys
    ensures Placed(parent, fetch, show, s, added.resources - {s}, added.outs)
  {
    hide Exposed, RewriteResource;
    var child := ChildOf(parent, fetch, s);
    forall rid | rid in child.resources ensures s + rid != s {
      assert s + rid in Brings(parent, fetch, s);
    }
  }

  lemma PlacedStays(parent: Parent, fetch: Fetch, show: Shower, t: string, resources: map<string, Resource>,
                    outs: map<string, Value>, after: map<string, Resource>, s: string)
    requires Placed(parent, fetch, show, t, resources, outs)
    requires s !in Brings(parent, fetch, t)
    requires forall id :: id in resources && id != s ==> id in after && after[id] == resources[id]
    ensures Placed(parent, fetch, show, t, after, outs)
  {
    var child := ChildOf(parent, fetch, t);
    forall rid | rid in child.resources ensures t + rid != s {
      assert t + rid in Brings(parent, fetch, t);
    }
  }

  /** Ids that clash with nothing still in the map meet no stack already deleted from it either. */
  lemma BringsFresh(parent: Parent, fetch: Fetch, s: string, done: set<string>, taken: set<string>)
    requires s in parent.resources && Fetches(parent.resources[s], fetch)
    requires !Clashes(s, ChildOf(parent, fetch, s).resources.Keys, taken)
    requires forall t :: t in done ==> Text.Less(t, s)
    ensures Brings(parent, fetch, s) !! taken && Brings(parent, fetch, s) !! done
  {
    forall id | id in Brings(parent, fetch, s) ensures id !in taken && id !in done {
      var rid :| rid in ChildOf(parent, fetch, s).resources.Keys && id == s + rid;
      PrefixSortsFirst(s, rid);
    }
  }

  /** A stack accepted after those that sort before it is compatible with them. */
  lemma AcceptedIsCompatible(parent: Parent, fetch: Fetch, show: Shower, done: set<string>, s: string, taken: set<string>)
    requires Compatible(parent, fetch, show, done) && FineIn(parent, fetch, show, s)
    requires taken == (parent.resources.Keys - done) + BroughtBy(parent, fetch, done)
    requires Brings(parent, fetch, s) !! taken && Brings(parent, fetch, s) !! done
    ensures Compatible(parent, fetch, show, done + {s})
  {
    hide FineIn, Brings;
    forall t | t in done ensures Brings(parent, fetch, s) !! Brings(parent, fetch, t) {
      assert Brings(parent, fetch, t) <= BroughtBy(parent, fetch, done);
    }
  }

  /** Among compatible stacks none is refused in its turn. */
  lemma CompatibleIsAccepted(parent: Parent, fetch: Fetch, show: Shower, all: set<string>, done: set<string>, s: string, taken: set<string>)
    requires Compatible(parent, fetch, show, all) && done <= all && s in all && s !in done
    requires taken == (parent.resources.Keys - done) + BroughtBy(parent, fetch, done)
    ensures FineIn(parent, fetch, show, s)
    ensures !Clashes(s, ChildOf(parent, fetch, s).resources.Keys, taken)
  {
    forall rid | rid in ChildOf(parent, fetch, s).resources.Keys ensures s + rid !in taken {
      assert s + rid in Brings(parent, fetch, s);
    }
  }

  /** What flattening returns: nothing when two ids meet or a stack is not in order, else the merged template rewritten. */
  ghost predicate FlatOf(parent: Parent, fetch: Fetch, show: Shower, r: Option<Parent>) {
    if Compatible(parent, fetch, show, Stacks(parent)) then
      exists resources: map<string, Resource>, outs: Outs ::
        Stage(parent, fetch, show, Stacks(parent), resources, outs) && r == RewriteTemplate(outs, resources, parent.outputs, show)
    else r == None
  }

  lemma FirstStage(parent: Parent, fetch: Fetch, show: Shower)
    ensures Compatible(parent, fetch, show, {}) && Stage(parent, fetch, show, {}, parent.resources, map[])
  {
    assert BroughtBy(parent, fetch, {}) == {};
  }

  function Upto(names: seq<string>, i: nat): set<string>
    requires i <= |names|
  {
    set n | n in names[..i]
  }

  lemma UptoGrows(names: seq<string>, i: nat)
    requires i < |names| && Sorted(names)
    ensures Upto(names, i + 1) == Upto(names, i) + {names[i]}
    ensures forall t :: t in Upto(names, i) ==> Text.Less(t, names[i])
    ensures names[i] !in Upto(names, i)
  {
    assert names[..i + 1] == names[..i] + [names[i]];
    Text.Total(names[i], names[i]);
  }

  /** One turn of the loop, both ways. */
  lemma StepChecked(parent: Parent, fetch: Fetch, show: Shower, names: seq<string>, i: nat,
                    resources: map<string, Resource>, outs: Outs, added: Option<Inlining>)
    requires Sorted(names) && Upto(names, |names|) == Stacks(parent) && i < |names|
    requires Compatible(parent, fetch, show, Upto(names, i)) && Stage(parent, fetch, show, Upto(names, i), resources, outs)
    requires var s := names[i];
      added.Some? <==> FineIn(parent, fetch, show, s) && !Clashes(s, ChildOf(parent, fetch, s).resources.Keys, resources.Keys)
    requires added.Some? ==> Adds(parent, fetch, show, names[i], resources, added.value)
    ensures added.None? ==> !Compatible(parent, fetch, show, Stacks(parent))
    ensures added.Some? ==> Compatible(parent, fetch, show, Upto(names, i + 1))
    ensures added.Some? ==> Stage(parent, fetch, show, Upto(names, i + 1), added.value.resources - {names[i]}, outs[names[i] := added.value.outs])
  {
    var s, done := names[i], Upto(names, i);
    UptoGrows(names, i);
    assert names[..|names|] == names;
    assert s in Stacks(parent) && done <= Stacks(parent);
    hide Upto, Compatible, Adds, Kept, AllPlaced, BroughtBy, Clashes, Brings;
    if Compatible(parent, fetch, show, Stacks(parent)) {
      CompatibleIsAccepted(parent, fetch, show, Stacks(parent), done, s, resources.Keys);
    }
    if added.Some? {
      BringsFresh(parent, fetch, s, done, resources.Keys);
      AcceptedIsCompatible(parent, fetch, show, done, s, resources.Keys);
      StageGrows(parent, fetch, show, done, s, resources, outs, added.value);
    }
  }

  method InlineNext(parent: Parent, fetch: Fetch, show: Shower, s: string, resources: map<string, Resource>) returns (added: Option<Inlining>)
    requires s in parent.resources
    ensures added.Some? <==> FineIn(parent, fetch, show, s) && !Clashes(s, ChildOf(parent, fetch, s).resources.Keys, resources.Keys)
    ensures added.Some? ==> Adds(parent, fetch, show, s, resources, added.value)
  {
    hide Inlined, Exposed, Clashes, Rewritable;
    added := InlineOneStack(s, parent.resources[s], resources, fetch, show);
  }

  lemma SortedListsAll(parent: Parent, names: seq<string>)
    requires (set n | n in names) == Stacks(parent)
    ensures Upto(names, 0) == {} && Upto(names, |names|) == Stacks(parent)
    ensures forall i :: 0 <= i < |names| ==> names[i] in parent.resources
  {
    assert names[..|names|] == names;
    forall i | 0 <= i < |names| ensures names[i] in parent.resources {
      assert names[i] in names;
      assert names[i] in Stacks(parent);
    }
  }

  datatype Merged = Merged(resources: map<string, Resource>, outs: Outs)

  /** The loop over the stacks. */
  method InlineAll(parent: Parent, fetch: Fetch, show: Shower, names: seq<string>) returns (m: Option<Merged>)
    requires Sorted(names) && (set n | n in names) == Stacks(parent)
    ensures m.Some? <==> Compatible(parent, fetch, show, Stacks(parent))
    ensures m.Some? ==> Stage(parent, fetch, show, Stacks(parent), m.value.resources, m.value.outs)
  {
    SortedListsAll(parent, names);
    hide Compatible, FineIn, Clashes, Stage, Adds, Upto, Stacks, Sorted;
    var resources, outs: Outs := parent.resources, map[];
    FirstStage(parent, fetch, show);
    var i := 0;
    while i < |names|
      invariant i <= |names| && Compatible(parent, fetch, show, Upto(names, i))
      invariant Stage(parent, fetch, show, Upto(names, i), resources, outs)
    {
      var added := InlineNext(parent, fetch, show, names[i], resources);
      StepChecked(parent, fetch, show, names, i, resources, outs, added);
      if added.None? {
        return None;
      }
      resources := added.value.resources - {names[i]};
      outs := outs[names[i] := added.value.outs];
      i := i + 1;
    }
    m := Some(Merged(resources, outs));
  }

  /** `FlattenNested`. */
  method FlattenNested(parent: Parent, fetch: Option<Fetch>, show: Shower) returns (r: Option<Parent>)
    ensures Stacks(parent) == {} ==> r == Some(parent)
    ensures Stacks(parent) != {} && fetch.None? ==> r == None
    ensures Stacks(parent) != {} && fetch.Some? ==> FlatOf(parent, fetch.value, show, r)
    ensures Stacks(parent) != {} && r.Some? ==> fetch.Some? && SameOrder(parent, fetch.value, r.value)
  {
    hide Compatible, Stage, RewriteTemplate, Sorted, SameOrder;
    if Stacks(parent) == {} {
      return Some(parent);
    }
    if fetch.None? {
      return None;
    }
    var names := SortedNames(Stacks(parent));
    var m := InlineAll(parent, fetch.value, show, names);
    if m.None? {
      return None;
    }
    r := RewriteTemplate(m.value.outs, m.value.resources, parent.outputs, show);
    if r.Some? {
      FlatKeepsOrder(parent, fetch.value, show, r.value);
    }
  }
}
