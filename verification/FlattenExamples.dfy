/** Three templates that flattening wires wrongly, and what comes of each. */
module FlattenExamples {
  import opened Wrappers
  import opened Expressions
  import opened Nested
  import opened NestedMeaning
  import opened Flatten
  import opened FlattenMeaning
  import opened FlattenIndependent
  import opened FlattenLimits

  // ---------------------------------------------------------------- compatible stacks have a flat template

  lemma AddedIs(p: Parent, fetch: Fetch, show: Shower, done: set<string>, s: string, resources: map<string, Resource>) returns (added: Inlining)
    requires Compatible(p, fetch, show, done + {s}) && s !in done
    requires resources.Keys == (p.resources.Keys - done) + BroughtBy(p, fetch, done)
    ensures Adds(p, fetch, show, s, resources, added)
  {
    hide *;
    StackFacts(p, fetch, show, done, s);
    FreshIds(p, fetch, show, done, s, resources);
    var c, child := CtxIn(p, fetch, show, s), ChildOf(p, fetch, s);
    added := Inlining(resources + Placing(c, child), Exposing(c, child));
    AddedAdds(p, fetch, show, s, resources, added);
  }

  lemma StackFacts(p: Parent, fetch: Fetch, show: Shower, done: set<string>, s: string)
    requires Compatible(p, fetch, show, done + {s})
    ensures FineIn(p, fetch, show, s) && Rewritable(CtxIn(p, fetch, show, s), ChildOf(p, fetch, s))
    ensures s in p.resources && Fetches(p.resources[s], fetch)
  {
    assert s in done + {s};
    hide Rewritable, Brings;
  }

  lemma AddedAdds(p: Parent, fetch: Fetch, show: Shower, s: string, resources: map<string, Resource>, added: Inlining)
    requires FineIn(p, fetch, show, s) && Rewritable(CtxIn(p, fetch, show, s), ChildOf(p, fetch, s)) && Brings(p, fetch, s) !! resources.Keys
    requires var c, child := CtxIn(p, fetch, show, s), ChildOf(p, fetch, s);
      added == Inlining(resources + Placing(c, child), Exposing(c, child))
    ensures Adds(p, fetch, show, s, resources, added)
  {
    var c, child := CtxIn(p, fetch, show, s), ChildOf(p, fetch, s);
    assert c.stack == s && Brings(p, fetch, s) == Prefixed(s, child.resources.Keys);
    hide RewriteResource, RewriteValue, Rewritable, Placing, Exposing, Fine, Brings, CtxIn, ChildOf, Exposed;
  }

  lemma FreshIds(p: Parent, fetch: Fetch, show: Shower, done: set<string>, s: string, resources: map<string, Resource>)
    requires Compatible(p, fetch, show, done + {s}) && s !in done
    requires resources.Keys == (p.resources.Keys - done) + BroughtBy(p, fetch, done)
    ensures Brings(p, fetch, s) !! resources.Keys
  {
    hide Brings, FineIn;
    assert s in done + {s} && forall t :: t in done ==> t in done + {s} && t != s;
  }

  /** The child's outputs, rewritten. */
  ghost function Exposing(c: Ctx, child: Child): (outs: map<string, Value>)
    requires Rewritable(c, child)
    ensures Exposed(c, child, outs)
  {
    map k | k in child.outputs :: RewriteValue(c, child.outputs[k]).value
  }

  /** The child's resources under their prefixed ids. */
  ghost function Placing(c: Ctx, child: Child): (placed: map<string, Resource>)
    requires Rewritable(c, child)
    ensures placed.Keys == Prefixed(c.stack, child.resources.Keys)
    ensures forall rid :: rid in child.resources ==>
      c.stack + rid in placed && RewriteResource(c, child.resources[rid]) == Some(placed[c.stack + rid])
  {
    var placed := map id | id in Prefixed(c.stack, child.resources.Keys) && id[|c.stack|..] in child.resources ::
      RewriteResource(c, child.resources[id[|c.stack|..]]).value;
    assert forall rid :: rid in child.resources ==> (c.stack + rid)[|c.stack|..] == rid;
    placed
  }

  lemma {:induction false} StageExists(p: Parent, fetch: Fetch, show: Shower, done: set<string>) returns (resources: map<string, Resource>, outs: Outs)
    requires Compatible(p, fetch, show, done) && done <= p.resources.Keys
    ensures Stage(p, fetch, show, done, resources, outs)
    decreases |done|
  {
    if done == {} {
      FirstStage(p, fetch, show);
      resources, outs := p.resources, map[];
    } else {
      var s :| s in done;
      var rest := done - {s};
      assert rest + {s} == done;
      FewerCompatible(p, fetch, show, rest, done);
      var r, o := StageExists(p, fetch, show, rest);
      var added := AddedIs(p, fetch, show, rest, s, r);
      StageGrows(p, fetch, show, rest, s, r, o, added);
      resources, outs := added.resources - {s}, o[s := added.outs];
    }
  }

  lemma FewerCompatible(p: Parent, fetch: Fetch, show: Shower, few: set<string>, all: set<string>)
    requires Compatible(p, fetch, show, all) && few <= all
    ensures Compatible(p, fetch, show, few)
  {
    hide FineIn, Brings;
  }

  /** The result of flattening compatible stacks, given that every output read can be rewritten. */
  lemma FlatExists(p: Parent, fetch: Fetch, show: Shower) returns (resources: map<string, Resource>, outs: Outs)
    requires Compatible(p, fetch, show, Stacks(p))
    ensures Stage(p, fetch, show, Stacks(p), resources, outs)
    ensures FlatOf(p, fetch, show, RewriteTemplate(outs, resources, p.outputs, show))
  {
    resources, outs := StageExists(p, fetch, show, Stacks(p));
  }

  // ---------------------------------------------------------------- a parent with one stack

  const BucketKind: string := "AWS::S3::Bucket"

  lemma KindsDiffer()
    ensures BucketKind != StackKind
  {
    assert |BucketKind| != |StackKind|;
  }

  function Plainly(properties: Value): Resource {
    Resource(BucketKind, properties, Absent, false, "")
  }

  function StackOf(url: string, given: map<string, Value>): Resource {
    Resource(StackKind, Object(map["TemplateURL" := Text(url), "Parameters" := Object(given)]), Absent, false, "")
  }

  /** Two resources, the second with the properties of interest. */
  function ChildWith(a: string, b: string, properties: Value): Child {
    Child(false, 0, 0, map[], map[a := Plainly(Null), b := Plainly(properties)], map[])
  }

  function OneStack(s: string, url: string): Parent {
    Parent(map[s := StackOf(url, map[])], map[])
  }

  /** Such a template is flattened, and its second resource is rewritten. */
  lemma OneStackFlattens(s: string, url: string, a: string, b: string, properties: Value, w: Value, show: Shower, base: Env) returns (flat: Parent)
    requires s != "" && url != "" && a != "" && b != "" && a != b && !Pseudo(s)
    requires RewriteValue(Ctx(s, {a, b}, map[], show), properties) == Some(w) && forall outs: Outs :: RewriteOutputs(outs, w, show) == Some(w)
    requires base.ids == {} && base.outs == map[]
    ensures FlatOf(OneStack(s, url), map[url := ChildWith(a, b, properties)], show, Some(flat))
    ensures s in Stacks(OneStack(s, url)) && FineIn(OneStack(s, url), map[url := ChildWith(a, b, properties)], show, s)
    ensures ChildOf(OneStack(s, url), map[url := ChildWith(a, b, properties)], s) == ChildWith(a, b, properties)
    ensures CtxIn(OneStack(s, url), map[url := ChildWith(a, b, properties)], show, s) == Ctx(s, {a, b}, map[], show)
    ensures Independent(OneStack(s, url), map[url := ChildWith(a, b, properties)], show, base)
  {
    hide *;
    var p, fetch := OneStack(s, url), map[url := ChildWith(a, b, properties)];
    OneStackShape(s, url, a, b, properties, w, show, base);
    AloneIsCompatible(p, fetch, show, s, {s + a, s + b});
    var resources, outs := FlatExists(p, fetch, show);
    forall id | id in resources ensures RewriteOutputs(outs, resources[id].properties, show).Some? {
      OneStackRow(s, url, a, b, properties, w, show, resources, outs, id);
    }
    NoOutputs(s, url);
    RewriteTemplateIs(outs, resources, p.outputs, show);
    flat := RewriteTemplate(outs, resources, p.outputs, show).value;
    OneStackIndependent(p, fetch, show, s, base);
  }

  lemma NoOutputs(s: string, url: string)
    ensures OneStack(s, url).outputs == map[]
  {
  }

  lemma OneStackShape(s: string, url: string, a: string, b: string, properties: Value, w: Value, show: Shower, base: Env)
    requires s != "" && url != "" && a != "" && b != "" && a != b && !Pseudo(s)
    requires RewriteValue(Ctx(s, {a, b}, map[], show), properties) == Some(w)
    ensures var p, fetch, child := OneStack(s, url), map[url := ChildWith(a, b, properties)], ChildWith(a, b, properties);
      && Stacks(p) == {s} && p.resources.Keys == {s} && FineIn(p, fetch, show, s)
      && ChildOf(p, fetch, s) == child && CtxIn(p, fetch, show, s) == Ctx(s, {a, b}, map[], show)
      && Brings(p, fetch, s) == {s + a, s + b} && Brings(p, fetch, s) !! p.resources.Keys
  {
    var p, fetch, child := OneStack(s, url), map[url := ChildWith(a, b, properties)], ChildWith(a, b, properties);
    OneStackFine(s, url, a, b, properties, w, show);
    assert child.resources.Keys == {a, b};
    assert |s + a| > |s| && |s + b| > |s|;
    hide Fine, RewriteValue;
  }

  lemma OneStackIndependent(p: Parent, fetch: Fetch, show: Shower, s: string, base: Env)
    requires Compatible(p, fetch, show, {s}) && Stacks(p) == {s} == p.resources.Keys && FineIn(p, fetch, show, s) && !Pseudo(s)
    requires CtxIn(p, fetch, show, s).params == map[] && base.ids == {} && base.outs == map[]
    ensures Independent(p, fetch, show, base)
  {
    hide Fine, Compatible;
  }

  lemma AloneIsCompatible(p: Parent, fetch: Fetch, show: Shower, s: string, ids: set<string>)
    requires FineIn(p, fetch, show, s) && Brings(p, fetch, s) == ids && ids !! p.resources.Keys
    ensures Compatible(p, fetch, show, {s})
  {
    hide FineIn, Brings;
  }

  lemma OneStackFine(s: string, url: string, a: string, b: string, properties: Value, w: Value, show: Shower)
    requires url != "" && a != b && RewriteValue(Ctx(s, {a, b}, map[], show), properties) == Some(w)
    ensures var p, fetch := OneStack(s, url), map[url := ChildWith(a, b, properties)];
      FineIn(p, fetch, show, s) && CtxIn(p, fetch, show, s) == Ctx(s, {a, b}, map[], show) && Url(p.resources[s]) == url
  {
    var p, fetch, child := OneStack(s, url), map[url := ChildWith(a, b, properties)], ChildWith(a, b, properties);
    var r := p.resources[s];
    assert Url(r) == url && Given(r) == map[];
    KindsDiffer();
    assert a in child.resources && forall rid :: rid in child.resources ==> child.resources[rid].kind == BucketKind;
    assert Supported(child) && Bindable(child, map[]) && Bindings(child, map[]) == map[];
    assert child.resources.Keys == {a, b};
    hide RewriteValue;
    assert RewriteResource(Ctx(s, {a, b}, map[], show), child.resources[b]).Some?;
    RewriteNull(Ctx(s, {a, b}, map[], show));
  }

  lemma RewriteNull(c: Ctx)
    ensures RewriteValue(c, Null) == Some(Null) && RewriteResource(c, Plainly(Null)) == Some(Plainly(Null))
  {
  }

  lemma OneStackRow(s: string, url: string, a: string, b: string, properties: Value, w: Value, show: Shower,
                    resources: map<string, Resource>, outs: Outs, id: string)
    requires url != "" && a != "" && b != "" && a != b && RewriteValue(Ctx(s, {a, b}, map[], show), properties) == Some(w)
    requires RewriteOutputs(outs, w, show) == Some(w)
    requires var p, fetch := OneStack(s, url), map[url := ChildWith(a, b, properties)];
      Stacks(p) == {s} && Stage(p, fetch, show, {s}, resources, outs) && id in resources
    ensures RewriteOutputs(outs, resources[id].properties, show).Some?
  {
    var p, fetch := OneStack(s, url), map[url := ChildWith(a, b, properties)];
    OneStackFine(s, url, a, b, properties, w, show);
    StageOf(p, fetch, show, resources, outs, s);
    InlinedIs(p, fetch, show, resources, outs[s], s, a);
    InlinedIs(p, fetch, show, resources, outs[s], s, b);
    RewriteNull(Ctx(s, {a, b}, map[], show));
    assert id in Brings(p, fetch, s);
    assert id == s + a || id == s + b;
  }

  // ---------------------------------------------------------------- a parameter takes a reference over

  /** Stack `App` holds a bucket and a policy that refers to it; the parent has a parameter `AppBucket`.
      In the flat template the policy refers to the parameter. */
  lemma CaptureHappens(show: Shower, base: Env, x: Value) returns (flat: Parent)
    requires base.ids == {} && base.outs == map[] && base.params == map["AppBucket" := x] && x != base.att("AppBucket", "")
    ensures var p, fetch := OneStack("App", "app.yaml"), map["app.yaml" := ChildWith("Bucket", "Policy", Ref("Bucket"))];
      && FlatOf(p, fetch, show, Some(flat)) && Independent(p, fetch, show, base) && "AppPolicy" in flat.resources
      && var tree := TreeOf(p, fetch, show, base);
        && Coherent(p, fetch, show, tree) && "App" in tree.children
        && Eval(flat.resources["AppPolicy"].properties, FlatEnv(tree, flat.resources.Keys)) != Eval(Ref("Bucket"), tree.children["App"])
  {
    hide *;
    LiteralFacts();
    var p, fetch := OneStack("App", "app.yaml"), map["app.yaml" := ChildWith("Bucket", "Policy", Ref("Bucket"))];
    var c := Ctx("App", {"Bucket", "Policy"}, map[], show);
    RefMoves(c, "Bucket");
    flat := OneStackFlattens("App", "app.yaml", "Bucket", "Policy", Ref("Bucket"), Ref("AppBucket"), show, base);
    IndependentCoheres(p, fetch, show, base);
    var tree := TreeOf(p, fetch, show, base);
    TwoResources("Bucket", "Policy", Ref("Bucket"));
    TreeParent(p, fetch, show, base);
    RefKeptIff(p, fetch, show, tree, flat, "App", "Policy", "Bucket");
    Captured(tree.parent, "AppBucket");
  }

  lemma LiteralFacts()
    ensures "App" + "Bucket" == "AppBucket" && "App" + "Policy" == "AppPolicy"
    ensures !Pseudo("App") && !Pseudo("Bucket") && !Pseudo("AppBucket") && "Bucket" != "Policy"
  {
    assert "AWS::"[1] == 'W' && "App"[1] == 'p' && "AppBucket"[1] == 'p' && "Bucket"[0] == 'B' && "Policy"[0] == 'P';
  }

  lemma RefMoves(c: Ctx, name: string)
    requires name in c.ids
    ensures RewriteValue(c, Ref(name)) == Some(Ref(c.stack + name))
    ensures forall outs: Outs :: RewriteOutputs(outs, Ref(c.stack + name), c.show) == Some(Ref(c.stack + name))
  {
    RefRewritten(c, map[], c.show, name);
    forall outs: Outs ensures RewriteOutputs(outs, Ref(c.stack + name), c.show) == Some(Ref(c.stack + name)) {
      RefRewritten(c, outs, c.show, name);
    }
  }

  lemma TwoResources(a: string, b: string, properties: Value)
    requires a != b
    ensures var child := ChildWith(a, b, properties);
      a in child.resources && b in child.resources && child.resources[b].properties == properties
  {
  }

  lemma TreeParent(p: Parent, fetch: Fetch, show: Shower, base: Env)
    requires Independent(p, fetch, show, base)
    ensures var t := TreeOf(p, fetch, show, base).parent; t.params == base.params && t.att == base.att && t.maps == base.maps
  {
    hide Compatible, FineIn;
  }

  lemma Captured(env: Env, id: string)
    requires id in env.params && env.params[id] != env.att(id, "")
    ensures !Uncaptured(env, id)
  {
  }

  // ---------------------------------------------------------------- a lookup finds the parent's entry

  const Sizes: (string, string, string) := ("Sizes", "prod", "vm")

  /** The child looks up a mapping it does not have; in the flat template the parent's answers. */
  lemma LookupHappens(show: Shower, base: Env) returns (flat: Parent)
    requires base.ids == {} && base.outs == map[] && base.maps == map["Sizes" := map["prod" := map["vm" := Text("large")]]]
    ensures var p, fetch := OneStack("App", "app.yaml"), map["app.yaml" := ChildWith("Bucket", "Policy", FindInMap(Sizes.0, Sizes.1, Sizes.2))];
      && FlatOf(p, fetch, show, Some(flat)) && Independent(p, fetch, show, base) && "AppPolicy" in flat.resources
      && var tree := TreeOf(p, fetch, show, base);
        && Coherent(p, fetch, show, tree) && "App" in tree.children
        && Eval(flat.resources["AppPolicy"].properties, FlatEnv(tree, flat.resources.Keys))
          != Eval(FindInMap(Sizes.0, Sizes.1, Sizes.2), tree.children["App"])
  {
    hide *;
    LiteralFacts();
    var v := FindInMap(Sizes.0, Sizes.1, Sizes.2);
    var p, fetch := OneStack("App", "app.yaml"), map["app.yaml" := ChildWith("Bucket", "Policy", v)];
    var c := Ctx("App", {"Bucket", "Policy"}, map[], show);
    forall outs: Outs ensures RewriteValue(c, v) == Some(v) && RewriteOutputs(outs, v, show) == Some(v) {
      FindUnmoved(c, outs, show, Sizes);
    }
    FindUnmoved(c, map[], show, Sizes);
    flat := OneStackFlattens("App", "app.yaml", "Bucket", "Policy", v, v, show, base);
    IndependentCoheres(p, fetch, show, base);
    var tree := TreeOf(p, fetch, show, base);
    TwoResources("Bucket", "Policy", v);
    TreeParent(p, fetch, show, base);
    ChildHasNoMaps(p, fetch, show, tree, "App");
    FindKeptIff(p, fetch, show, tree, flat, "App", "Policy", Sizes);
    SizesRead(base.maps);
  }

  lemma ChildHasNoMaps(p: Parent, fetch: Fetch, show: Shower, tree: Tree, s: string)
    requires Coherent(p, fetch, show, tree) && s in Stacks(p)
    ensures s in tree.children && tree.children[s].maps == map[]
  {
    assert FineIn(p, fetch, show, s) && ChildCoherent(p, fetch, show, tree, s);
  }

  lemma SizesRead(maps: Mappings)
    requires maps == map["Sizes" := map["prod" := map["vm" := Text("large")]]]
    ensures MapRead(maps, Sizes) == Text("large") && MapRead(map[], Sizes) == Null
  {
  }

  // ---------------------------------------------------------------- an output passes another stack's output on

  /** Stack `Front` is given an output of stack `Back` and hands it back as its own. */
  function TwoStacks(): Parent {
    Parent(map["Front" := StackOf("front.yaml", map["Host" := GetAtt("Back", "Outputs.Host")]), "Back" := StackOf("back.yaml", map[])],
           map["Host" := GetAtt("Front", "Outputs.Host")])
  }

  function TwoChildren(): Fetch {
    map["front.yaml" := OneBucket(map["Host" := None], Ref("Host")), "back.yaml" := OneBucket(map[], Text("example.org"))]
  }

  /** The flat template is made, and its output reads a stack it no longer has. */
  lemma ChainedOutputDangles(show: Shower, tree: Tree) returns (flat: Parent)
    ensures FlatOf(TwoStacks(), TwoChildren(), show, Some(flat))
    ensures "Host" in flat.outputs && flat.outputs["Host"] == GetAtt("Back", "Outputs.Host")
    ensures !Resolves(flat.outputs["Host"], FlatEnv(tree, flat.resources.Keys))
    ensures !SameMeaning(TwoStacks(), TwoChildren(), tree, flat)
  {
    hide *;
    var p, fetch := TwoStacks(), TwoChildren();
    TwoCompatible(show);
    var resources, outs := FlatExists(p, fetch, show);
    TwoOuts(show, resources, outs);
    forall id | id in resources ensures RewriteOutputs(outs, resources[id].properties, show).Some? {
      TwoRow(show, resources, outs, id);
    }
    ChainRead(outs, show);
    RewriteTemplateIs(outs, resources, p.outputs, show);
    flat := RewriteTemplate(outs, resources, p.outputs, show).value;
    FlatOutput(outs, show, resources, p.outputs, flat, "Host");
    Dangling(tree, flat);
  }

  lemma FlatOutput(outs: Outs, show: Shower, resources: map<string, Resource>, outputs: map<string, Value>, flat: Parent, k: string)
    requires RewrittenTemplate(outs, show, resources, outputs, flat) && k in outputs
    ensures flat.resources.Keys == resources.Keys && k in flat.outputs && RewriteOutputs(outs, outputs[k], show) == Some(flat.outputs[k])
  {
  }

  lemma TwoNames()
    ensures "Front" != "Back" && "Front" + "Bucket" == "FrontBucket" && "Back" + "Bucket" == "BackBucket" && "FrontBucket" != "BackBucket"
    ensures "Front" !in {"FrontBucket", "BackBucket"} && "Back" !in {"FrontBucket", "BackBucket"}
    ensures "Host" != "Bucket" && OutputsDot + "Host" == "Outputs.Host" && !Pseudo("Back") && "front.yaml" != "back.yaml"
  {
    assert |"Front"| == 5 && |"Back"| == 4 && |"FrontBucket"| == 11 && |"BackBucket"| == 10 && |"Host"| == 4 && |"Bucket"| == 6;
    assert "AWS::"[0] == 'A' && "Back"[0] == 'B' && |"front.yaml"| == 10 && |"back.yaml"| == 9;
  }

  lemma StackOfReads(url: string, given: map<string, Value>)
    ensures Url(StackOf(url, given)) == url && Given(StackOf(url, given)) == given && StackOf(url, given).kind == StackKind
  {
  }

  /** A child with one bucket and one output. */
  function OneBucket(parameters: map<string, Option<Value>>, host: Value): Child {
    Child(false, 0, 0, parameters, map["Bucket" := Plainly(Null)], map["Host" := host])
  }

  lemma OneBucketFine(p: Parent, fetch: Fetch, show: Shower, s: string, url: string, given: map<string, Value>, child: Child, host: Value, w: Value)
    requires s in p.resources && p.resources[s] == StackOf(url, given) && url != "" && url in fetch && fetch[url] == child
    requires child == OneBucket(child.parameters, host) && child.parameters.Keys == given.Keys
    requires RewriteValue(Ctx(s, {"Bucket"}, given, show), host) == Some(w)
    ensures FineIn(p, fetch, show, s) && ChildOf(p, fetch, s) == child && CtxIn(p, fetch, show, s) == Ctx(s, {"Bucket"}, given, show)
    ensures Brings(p, fetch, s) == {s + "Bucket"}
  {
    StackOfReads(url, given);
    KindsDiffer();
    var c := Ctx(s, {"Bucket"}, given, show);
    RewriteNull(c);
    assert "Bucket" in child.resources && child.resources.Keys == {"Bucket"} && Supported(child);
    assert Bindings(child, given) == given;
    hide StackOf, Url, Given, RewriteValue, RewriteResource;
    assert Rewritable(c, child);
  }

  lemma FrontFine(show: Shower)
    ensures var p, fetch := TwoStacks(), TwoChildren();
      && FineIn(p, fetch, show, "Front") && Brings(p, fetch, "Front") == {"FrontBucket"}
      && CtxIn(p, fetch, show, "Front") == Ctx("Front", {"Bucket"}, map["Host" := GetAtt("Back", "Outputs.Host")], show)
      && ChildOf(p, fetch, "Front") == fetch["front.yaml"]
  {
    TwoNames();
    var p, fetch := TwoStacks(), TwoChildren();
    var given: map<string, Value> := map["Host" := GetAtt("Back", "Outputs.Host")];
    HostMoves(Ctx("Front", {"Bucket"}, given, show), GetAtt("Back", "Outputs.Host"));
    hide StackOf, RewriteValue, GetAtt, FineIn, Brings, CtxIn, ChildOf;
    OneBucketFine(p, fetch, show, "Front", "front.yaml", given, fetch["front.yaml"], Ref("Host"), GetAtt("Back", "Outputs.Host"));
  }

  lemma HostMoves(c: Ctx, w: Value)
    requires "Host" !in c.ids && c.params == map["Host" := w]
    ensures RewriteValue(c, Ref("Host")) == Some(w)
  {
    assert IsRef(Ref("Host"));
  }

  lemma BackFine(show: Shower)
    ensures var p, fetch := TwoStacks(), TwoChildren();
      && FineIn(p, fetch, show, "Back") && Brings(p, fetch, "Back") == {"BackBucket"}
      && ChildOf(p, fetch, "Back") == fetch["back.yaml"] && CtxIn(p, fetch, show, "Back") == Ctx("Back", {"Bucket"}, map[], show)
  {
    TwoNames();
    var p, fetch := TwoStacks(), TwoChildren();
    assert RewriteValue(Ctx("Back", {"Bucket"}, map[], show), Text("example.org")) == Some(Text("example.org"));
    hide StackOf, RewriteValue, GetAtt, FineIn, Brings, CtxIn, ChildOf;
    OneBucketFine(p, fetch, show, "Back", "back.yaml", map[], fetch["back.yaml"], Text("example.org"), Text("example.org"));
  }

  lemma TwoCompatible(show: Shower)
    ensures Stacks(TwoStacks()) == {"Front", "Back"} && Compatible(TwoStacks(), TwoChildren(), show, {"Front", "Back"})
  {
    var p, fetch := TwoStacks(), TwoChildren();
    hide *;
    TwoNames();
    FrontFine(show);
    BackFine(show);
    TwoAreStacks();
    PairCompatible(p, fetch, show, "Front", "Back");
  }

  lemma TwoAreStacks()
    ensures TwoStacks().resources.Keys == {"Front", "Back"} == Stacks(TwoStacks())
  {
    TwoNames();
    assert TwoStacks().resources.Keys == {"Front", "Back"};
  }

  lemma PairCompatible(p: Parent, fetch: Fetch, show: Shower, a: string, b: string)
    requires FineIn(p, fetch, show, a) && FineIn(p, fetch, show, b)
    requires Brings(p, fetch, a) !! p.resources.Keys && Brings(p, fetch, b) !! p.resources.Keys && Brings(p, fetch, a) !! Brings(p, fetch, b)
    ensures Compatible(p, fetch, show, {a, b})
  {
    hide FineIn, Brings;
  }

  lemma TwoOuts(show: Shower, resources: map<string, Resource>, outs: Outs)
    requires Stage(TwoStacks(), TwoChildren(), show, Stacks(TwoStacks()), resources, outs)
    ensures "Front" in outs && "Host" in outs["Front"] && outs["Front"]["Host"] == GetAtt("Back", "Outputs.Host")
    ensures resources.Keys == {"FrontBucket", "BackBucket"}
    ensures resources["FrontBucket"].properties == Null && resources["BackBucket"].properties == Null
  {
    var p, fetch := TwoStacks(), TwoChildren();
    hide *;
    TwoNames();
    TwoCompatible(show);
    FrontFine(show);
    BackFine(show);
    TwoBrought(show);
    StageKeys(p, fetch, show, resources, outs);
    var given: map<string, Value> := map["Host" := GetAtt("Back", "Outputs.Host")];
    HostMoves(Ctx("Front", {"Bucket"}, given, show), GetAtt("Back", "Outputs.Host"));
    TwoChildrenAre();
    BucketRow(p, fetch, show, resources, outs, "Front", map["Host" := None], Ref("Host"));
    BucketRow(p, fetch, show, resources, outs, "Back", map[], Text("example.org"));
  }

  lemma TwoChildrenAre()
    ensures "front.yaml" in TwoChildren() && TwoChildren()["front.yaml"] == OneBucket(map["Host" := None], Ref("Host"))
    ensures "back.yaml" in TwoChildren() && TwoChildren()["back.yaml"] == OneBucket(map[], Text("example.org"))
  {
    TwoNames();
  }

  lemma StageKeys(p: Parent, fetch: Fetch, show: Shower, resources: map<string, Resource>, outs: Outs)
    requires Stage(p, fetch, show, Stacks(p), resources, outs)
    ensures resources.Keys == (p.resources.Keys - Stacks(p)) + BroughtBy(p, fetch, Stacks(p))
  {
    hide Stacks, BroughtBy;
  }

  lemma BucketRow(p: Parent, fetch: Fetch, show: Shower, resources: map<string, Resource>, outs: Outs, s: string,
                  parameters: map<string, Option<Value>>, host: Value)
    requires Stage(p, fetch, show, Stacks(p), resources, outs) && s in Stacks(p) && FineIn(p, fetch, show, s)
    requires ChildOf(p, fetch, s) == OneBucket(parameters, host)
    ensures s + "Bucket" in resources && resources[s + "Bucket"].properties == Null
    ensures s in outs && outs[s].Keys == {"Host"} && RewriteValue(CtxIn(p, fetch, show, s), host) == Some(outs[s]["Host"])
  {
    hide *;
    StageOf(p, fetch, show, resources, outs, s);
    OneBucketIs(parameters, host);
    InlinedIs(p, fetch, show, resources, outs[s], s, "Bucket");
    RewriteNull(CtxIn(p, fetch, show, s));
    ExposedHost(p, fetch, show, s, resources, outs[s], parameters, host);
  }

  lemma OneBucketIs(parameters: map<string, Option<Value>>, host: Value)
    ensures "Bucket" in OneBucket(parameters, host).resources && OneBucket(parameters, host).resources["Bucket"].properties == Null
  {
  }

  lemma ExposedHost(p: Parent, fetch: Fetch, show: Shower, s: string, resources: map<string, Resource>, outs: map<string, Value>,
                    parameters: map<string, Option<Value>>, host: Value)
    requires Placed(p, fetch, show, s, resources, outs) && FineIn(p, fetch, show, s) && ChildOf(p, fetch, s) == OneBucket(parameters, host)
    ensures outs.Keys == {"Host"} && RewriteValue(CtxIn(p, fetch, show, s), host) == Some(outs["Host"])
  {
    hide Fine, FineIn, RewriteValue, RewriteResource, CtxIn, ChildOf, Brings;
  }

  lemma TwoBrought(show: Shower)
    ensures var p, fetch := TwoStacks(), TwoChildren();
      (p.resources.Keys - {"Front", "Back"}) + BroughtBy(p, fetch, {"Front", "Back"}) == {"FrontBucket", "BackBucket"}
  {
    var p, fetch := TwoStacks(), TwoChildren();
    FrontFine(show);
    BackFine(show);
    BroughtGrows(p, fetch, {"Front"}, "Back");
    BroughtGrows(p, fetch, {}, "Front");
    assert BroughtBy(p, fetch, {}) == {} && {} + {"Front"} == {"Front"} && {"Front"} + {"Back"} == {"Front", "Back"};
    assert p.resources.Keys == {"Front", "Back"};
    hide Brings, BroughtBy, FineIn;
  }

  lemma TwoRow(show: Shower, resources: map<string, Resource>, outs: Outs, id: string)
    requires resources.Keys == {"FrontBucket", "BackBucket"} && id in resources
    requires resources["FrontBucket"].properties == Null && resources["BackBucket"].properties == Null
    ensures RewriteOutputs(outs, resources[id].properties, show).Some?
  {
    assert id == "FrontBucket" || id == "BackBucket";
  }

  lemma ChainRead(outs: Outs, show: Shower)
    requires "Front" in outs && "Host" in outs["Front"] && outs["Front"]["Host"] == GetAtt("Back", "Outputs.Host")
    ensures TwoStacks().outputs.Keys == {"Host"} && TwoStacks().outputs["Host"] == GetAtt("Front", "Outputs.Host")
    ensures RewriteOutputs(outs, GetAtt("Front", "Outputs.Host"), show) == Some(GetAtt("Back", "Outputs.Host"))
  {
    TwoNames();
    ReadIsSubstitutedOnce(outs, show, "Front", "Host");
  }

  lemma Dangling(tree: Tree, flat: Parent)
    requires flat.resources.Keys == {"FrontBucket", "BackBucket"}
    requires "Host" in flat.outputs && flat.outputs["Host"] == GetAtt("Back", "Outputs.Host")
    ensures !Resolves(flat.outputs["Host"], FlatEnv(tree, flat.resources.Keys))
    ensures !SameMeaning(TwoStacks(), TwoChildren(), tree, flat)
  {
    TwoNames();
    var v, env := GetAtt("Back", "Outputs.Host"), FlatEnv(tree, flat.resources.Keys);
    assert IsGetAtt(v) && Literally(v.fields["Fn::GetAtt"]) == Some(("Back", "Outputs.Host"));
    assert !KnownAtt(env, "Back", "Outputs.Host");
    assert "Host" in TwoStacks().outputs;
    assert !OutputMeans(TwoStacks(), tree, flat, "Host");
  }
}
