/** Where flattening does not keep a value: exactly when, and a template for each case. */
module FlattenLimits {
  import opened Wrappers
  import opened Expressions
  import opened Nested
  import opened NestedMeaning
  import opened Flatten
  import opened FlattenMeaning
  import opened FlattenIndependent

  // ---------------------------------------------------------------- one row of the flat template

  /** How a child's resource got into the flat template: rewritten, then its output reads rewritten. */
  lemma FlatRow(p: Parent, fetch: Fetch, show: Shower, flat: Parent, s: string, rid: string) returns (outs: Outs, mid: Value)
    requires FlatOf(p, fetch, show, Some(flat)) && s in Stacks(p) && FineIn(p, fetch, show, s) && rid in ChildOf(p, fetch, s).resources
    ensures s + rid in flat.resources && Brings(p, fetch, s) <= flat.resources.Keys
    ensures RewriteValue(CtxIn(p, fetch, show, s), ChildOf(p, fetch, s).resources[rid].properties) == Some(mid)
    ensures RewriteOutputs(outs, mid, show) == Some(flat.resources[s + rid].properties)
  {
    var resources: map<string, Resource>, o: Outs :|
      Stage(p, fetch, show, Stacks(p), resources, o) && Some(flat) == RewriteTemplate(o, resources, p.outputs, show);
    StageOf(p, fetch, show, resources, o, s);
    InlinedIs(p, fetch, show, resources, o[s], s, rid);
    hide RewriteOutputs, RewriteValue, Stage, Placed;
    outs, mid := o, resources[s + rid].properties;
  }

  /** A child's reference to one of its own resources keeps its value if and only if no parent parameter
      is called like the prefixed id, or that parameter has the very value. */
  lemma RefKeptIff(p: Parent, fetch: Fetch, show: Shower, tree: Tree, flat: Parent, s: string, rid: string, to: string)
    requires Coherent(p, fetch, show, tree) && FlatOf(p, fetch, show, Some(flat)) && s in Stacks(p)
    requires FineIn(p, fetch, show, s) && rid in ChildOf(p, fetch, s).resources && to in ChildOf(p, fetch, s).resources
    requires ChildOf(p, fetch, s).resources[rid].properties == Ref(to)
    requires to !in CtxIn(p, fetch, show, s).params && !Pseudo(to) && !Pseudo(s + to)
    ensures s + rid in flat.resources && s in tree.children
    ensures Eval(flat.resources[s + rid].properties, FlatEnv(tree, flat.resources.Keys)) == Eval(Ref(to), tree.children[s])
       <==> Uncaptured(tree.parent, s + to)
  {
    hide *;
    var outs, mid := FlatRow(p, fetch, show, flat, s, rid);
    ChildEnv(p, fetch, show, tree, s, to);
    RefRewritten(CtxIn(p, fetch, show, s), outs, show, to);
    EvalRef(to, tree.children[s]);
    EvalRef(s + to, FlatEnv(tree, flat.resources.Keys));
    RefReads(tree, s, to, flat.resources.Keys);
  }

  lemma ChildEnv(p: Parent, fetch: Fetch, show: Shower, tree: Tree, s: string, to: string)
    requires Coherent(p, fetch, show, tree) && s in Stacks(p) && FineIn(p, fetch, show, s) && to in ChildOf(p, fetch, s).resources
    ensures s in tree.children && s in tree.parent.outs && to in tree.children[s].ids
    ensures tree.children[s].params.Keys == CtxIn(p, fetch, show, s).params.Keys
    ensures tree.children[s].att(to, "") == tree.parent.att(s + to, "")
    ensures CtxIn(p, fetch, show, s).stack == s && to in CtxIn(p, fetch, show, s).ids && s + to in Brings(p, fetch, s)
  {
    assert ChildCoherent(p, fetch, show, tree, s);
    hide Fine, Compatible, Eval;
    assert s + to in Prefixed(s, ChildOf(p, fetch, s).resources.Keys);
  }

  lemma RefRewritten(c: Ctx, outs: Outs, show: Shower, to: string)
    requires to in c.ids
    ensures RewriteValue(c, Ref(to)) == Some(Ref(c.stack + to)) && RewriteOutputs(outs, Ref(c.stack + to), show) == Some(Ref(c.stack + to))
  {
    assert IsRef(Ref(to)) && IsRef(Ref(c.stack + to));
    OutputsRef(outs, show, Ref(c.stack + to));
  }

  lemma RefReads(tree: Tree, s: string, to: string, ids: set<string>)
    requires s in tree.children && to in tree.children[s].ids && to !in tree.children[s].params && s + to in ids
    requires tree.children[s].att(to, "") == tree.parent.att(s + to, "") && !Pseudo(to) && !Pseudo(s + to)
    ensures RefIn(FlatEnv(tree, ids), s + to) == RefIn(tree.children[s], to) <==> Uncaptured(tree.parent, s + to)
  {
  }

  /** A child's lookup keeps its value if and only if the parent's mappings hold under the keys what the
      child's do. */
  lemma FindKeptIff(p: Parent, fetch: Fetch, show: Shower, tree: Tree, flat: Parent, s: string, rid: string, keys: (string, string, string))
    requires Coherent(p, fetch, show, tree) && FlatOf(p, fetch, show, Some(flat)) && s in Stacks(p)
    requires FineIn(p, fetch, show, s) && rid in ChildOf(p, fetch, s).resources
    requires ChildOf(p, fetch, s).resources[rid].properties == FindInMap(keys.0, keys.1, keys.2)
    ensures s + rid in flat.resources && s in tree.children
    ensures Eval(flat.resources[s + rid].properties, FlatEnv(tree, flat.resources.Keys)) == Eval(FindInMap(keys.0, keys.1, keys.2), tree.children[s])
       <==> MapRead(tree.children[s].maps, keys) == MapRead(tree.parent.maps, keys)
  {
    var outs, mid := FlatRow(p, fetch, show, flat, s, rid);
    assert ChildCoherent(p, fetch, show, tree, s);
    FindUnmoved(CtxIn(p, fetch, show, s), outs, show, keys);
    FindIs(keys, tree.children[s]);
    FindIs(keys, FlatEnv(tree, flat.resources.Keys));
  }

  /** Neither rewriting touches a lookup with literal keys. */
  lemma FindUnmoved(c: Ctx, outs: Outs, show: Shower, keys: (string, string, string))
    ensures RewriteValue(c, FindInMap(keys.0, keys.1, keys.2)) == Some(FindInMap(keys.0, keys.1, keys.2))
    ensures RewriteOutputs(outs, FindInMap(keys.0, keys.1, keys.2), show) == Some(FindInMap(keys.0, keys.1, keys.2))
  {
    var v := FindInMap(keys.0, keys.1, keys.2);
    var arg := v.fields["Fn::FindInMap"];
    assert v.fields.Keys == {"Fn::FindInMap"};
    RewriteTexts(c, arg);
    var w := RewriteValue(c, v).value;
    assert w.fields == v.fields;
    OutputTexts(outs, show, arg);
    FieldsUntouched(outs, show, v);
  }

  lemma RewriteTexts(c: Ctx, list: Value)
    requires list.List? && forall i :: 0 <= i < |list.items| ==> list.items[i].Text?
    ensures RewriteValue(c, list) == Some(list)
  {
    assert forall i :: 0 <= i < |list.items| ==> RewriteValue(c, list.items[i]) == Some(list.items[i]);
    RewriteList(c, list);
    assert RewriteValue(c, list).value.items == list.items;
  }

  lemma OutputTexts(outs: Outs, show: Shower, list: Value)
    requires list.List? && forall i :: 0 <= i < |list.items| ==> list.items[i].Text?
    ensures RewriteOutputs(outs, list, show) == Some(list)
  {
    assert forall i :: 0 <= i < |list.items| ==> RewriteOutputs(outs, list.items[i], show) == Some(list.items[i]);
    OutputsList(outs, show, list);
    assert RewriteOutputs(outs, list, show).value.items == list.items;
  }

  lemma FindIs(keys: (string, string, string), env: Env)
    ensures Eval(FindInMap(keys.0, keys.1, keys.2), env) == MapRead(env.maps, keys)
  {
    var v := FindInMap(keys.0, keys.1, keys.2);
    assert v.fields.Keys == {"Fn::FindInMap"};
    EvalFind(v, env);
  }

  /** A read of an output becomes the output's expression, which is not rewritten again. */
  lemma ReadIsSubstitutedOnce(outs: Outs, show: Shower, a: string, k: string)
    requires a != "" && a in outs && k in outs[a]
    ensures RewriteOutputs(outs, GetAtt(a, OutputsDot + k), show) == Some(outs[a][k])
  {
    var v := GetAtt(a, OutputsDot + k);
    OutputsGetAtt(outs, show, v);
    assert (OutputsDot + k)[|OutputsDot|..] == k;
  }
}
