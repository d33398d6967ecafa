/** The flat template means what the parent and its children mean together. */
module FlattenMeaning {
  import opened Wrappers
  import opened Expressions
  import opened Nested
  import opened NestedMeaning
  import opened Flatten

  /** An evaluation of a parent beside evaluations of its nested stacks. */
  datatype Tree = Tree(parent: Env, children: map<string, Env>)

  /** Stack `s` evaluated as a template of its own: parameters bound by the parent, outputs handed back to it. */
  ghost predicate ChildCoherent(p: Parent, fetch: Fetch, show: Shower, tree: Tree, s: string)
    requires FineIn(p, fetch, show, s) && s in tree.children && s in tree.parent.outs
  {
    var c, child, env := CtxIn(p, fetch, show, s), ChildOf(p, fetch, s), tree.children[s];
    && env.ids == child.resources.Keys && env.outs == map[] && env.maps == map[]
    && env.pseudo == tree.parent.pseudo && env.show == tree.parent.show && SameHost(env, tree.parent)
    && (forall rid: string, a: string :: rid in env.ids ==> env.att(rid, a) == tree.parent.att(s + rid, a))
    && env.params.Keys == c.params.Keys
    && (forall q :: q in c.params ==> env.params[q] == Eval(c.params[q], tree.parent))
    && tree.parent.outs[s].Keys == child.outputs.Keys
    && (forall k :: k in child.outputs ==> tree.parent.outs[s][k] == Eval(child.outputs[k], env))
  }

  /** One evaluation of the whole tree; the child's resource `rid` is the one the flat template calls `s` + `rid`. */
  ghost predicate Coherent(p: Parent, fetch: Fetch, show: Shower, tree: Tree) {
    && Compatible(p, fetch, show, Stacks(p))
    && tree.parent.ids == p.resources.Keys - Stacks(p)
    && tree.parent.outs.Keys == Stacks(p) && tree.children.Keys == Stacks(p)
    && forall s :: s in Stacks(p) ==> FineIn(p, fetch, show, s) && ChildCoherent(p, fetch, show, tree, s)
  }

  ghost predicate Sound(v: Value, env: Env) {
    Tame(v) && Resolves(v, env)
  }

  /** A value of the child that flattening rewrites faithfully: its lookups find in the parent's mappings
      what they find in the child's, which has none. */
  ghost predicate Movable(v: Value, child: Env, parent: Env) {
    Portable(v) && ReadsAgree(v, child, parent.maps)
  }

  /** Stack `s` stays within what flattening rewrites faithfully. */
  ghost predicate ChildInScope(p: Parent, fetch: Fetch, show: Shower, tree: Tree, s: string)
    requires FineIn(p, fetch, show, s) && s in tree.children
  {
    var c, child, env := CtxIn(p, fetch, show, s), ChildOf(p, fetch, s), tree.children[s];
    && (forall rid :: rid in c.ids ==>
      rid != "" && !Pseudo(rid) && rid !in c.params && !Pseudo(s + rid) && Uncaptured(tree.parent, s + rid))
    && (forall q :: q in c.params ==> q != "" && !Pseudo(q) && Sound(c.params[q], tree.parent))
    && (forall rid :: rid in child.resources ==> Movable(child.resources[rid].properties, env, tree.parent))
    && (forall k :: k in child.outputs ==> Movable(child.outputs[k], env, tree.parent))
  }

  ghost predicate InScope(p: Parent, fetch: Fetch, show: Shower, tree: Tree) {
    && Compatible(p, fetch, show, Stacks(p))
    && (forall id :: id in p.resources ==> !Pseudo(id))
    && (forall id :: id in p.resources && id !in Stacks(p) ==> Sound(p.resources[id].properties, tree.parent))
    && (forall k :: k in p.outputs ==> Sound(p.outputs[k], tree.parent))
    && (forall s :: s in Stacks(p) ==> FineIn(p, fetch, show, s) && s in tree.children && ChildInScope(p, fetch, show, tree, s))
  }

  /** What the flat template is evaluated against: the parent's parameters, every resource, no nested stack. */
  function FlatEnv(tree: Tree, ids: set<string>): Env {
    tree.parent.(ids := ids, outs := map[])
  }

  /** The flat template with the stacks' outputs still readable by name. */
  function MidEnv(tree: Tree, ids: set<string>): Env {
    tree.parent.(ids := ids)
  }

  // ---------------------------------------------------------------- the environments fit

  lemma IdsFacts(p: Parent, fetch: Fetch, show: Shower, tree: Tree, resources: map<string, Resource>, outs: Outs)
    requires Coherent(p, fetch, show, tree) && InScope(p, fetch, show, tree)
    requires Stage(p, fetch, show, Stacks(p), resources, outs)
    ensures tree.parent.ids <= resources.Keys && resources.Keys !! Stacks(p)
    ensures forall id :: id in resources || id in Stacks(p) ==> !Pseudo(id)
    ensures tree.parent.outs.Keys == Stacks(p)
  {
    BroughtIsNew(p, fetch, show, Stacks(p));
    forall id | id in BroughtBy(p, fetch, Stacks(p)) ensures !Pseudo(id) {
      var s :| s in Stacks(p) && id in Brings(p, fetch, s);
      BroughtNames(p, fetch, show, tree, s, id);
    }
  }

  lemma BroughtNames(p: Parent, fetch: Fetch, show: Shower, tree: Tree, s: string, id: string)
    requires FineIn(p, fetch, show, s) && s in tree.children && ChildInScope(p, fetch, show, tree, s) && id in Brings(p, fetch, s)
    ensures !Pseudo(id)
  {
    hide Rewritable;
    var rid :| rid in ChildOf(p, fetch, s).resources.Keys && id == s + rid;
    assert rid in CtxIn(p, fetch, show, s).ids;
  }

  lemma ChildMatches(p: Parent, fetch: Fetch, show: Shower, tree: Tree, s: string, ids: set<string>)
    requires FineIn(p, fetch, show, s) && s in tree.children && s in tree.parent.outs
    requires ChildCoherent(p, fetch, show, tree, s) && ChildInScope(p, fetch, show, tree, s)
    requires Widens(tree.parent, MidEnv(tree, ids)) && Brings(p, fetch, s) <= ids && ids !! tree.parent.outs.Keys
    ensures Matches(CtxIn(p, fetch, show, s), tree.children[s], MidEnv(tree, ids))
  {
    var c, env, mid := CtxIn(p, fetch, show, s), tree.children[s], MidEnv(tree, ids);
    forall rid | rid in c.ids ensures Renamed(c, env, mid, rid) {
      assert s + rid in Brings(p, fetch, s);
    }
    forall q | q in c.params ensures BoundIn(c, env, mid, q) {
      assert Sound(c.params[q], tree.parent);
      NotCaptured(c.params[q], tree.parent, mid);
    }
  }

  lemma ParentWidens(p: Parent, fetch: Fetch, show: Shower, tree: Tree, resources: map<string, Resource>, outs: Outs)
    requires Coherent(p, fetch, show, tree) && InScope(p, fetch, show, tree)
    requires Stage(p, fetch, show, Stacks(p), resources, outs)
    ensures Widens(tree.parent, MidEnv(tree, resources.Keys))
    ensures Widens(FlatEnv(tree, resources.Keys), MidEnv(tree, resources.Keys))
    ensures resources.Keys !! tree.parent.outs.Keys
  {
    IdsFacts(p, fetch, show, tree, resources, outs);
    hide Coherent, InScope, Stage, Widens, Stacks, Pseudo;
    EnvWidens(tree, resources.Keys);
  }

  lemma EnvWidens(tree: Tree, ids: set<string>)
    requires tree.parent.ids <= ids && ids !! tree.parent.outs.Keys
    requires forall id :: id in ids || id in tree.parent.outs.Keys ==> !Pseudo(id)
    ensures Widens(tree.parent, MidEnv(tree, ids)) && Widens(FlatEnv(tree, ids), MidEnv(tree, ids))
  {}

  lemma StageOf(p: Parent, fetch: Fetch, show: Shower, resources: map<string, Resource>, outs: Outs, s: string)
    requires Stage(p, fetch, show, Stacks(p), resources, outs) && s in Stacks(p)
    ensures outs.Keys == Stacks(p) && Placed(p, fetch, show, s, resources, outs[s]) && Brings(p, fetch, s) <= resources.Keys
  {
    hide Placed, Brings;
  }

  /** A value of stack `s`, rewritten, means in the middle environment what it means in the child. */
  lemma ChildValue(p: Parent, fetch: Fetch, show: Shower, tree: Tree, resources: map<string, Resource>, outs: Outs, s: string, v: Value, w: Value)
    requires Coherent(p, fetch, show, tree) && InScope(p, fetch, show, tree)
    requires Stage(p, fetch, show, Stacks(p), resources, outs) && s in Stacks(p)
    requires FineIn(p, fetch, show, s) && s in tree.children && Movable(v, tree.children[s], tree.parent)
    requires RewriteValue(CtxIn(p, fetch, show, s), v) == Some(w)
    ensures Eval(w, MidEnv(tree, resources.Keys)) == Eval(v, tree.children[s]) && Sound(w, MidEnv(tree, resources.Keys))
  {
    ParentWidens(p, fetch, show, tree, resources, outs);
    StageOf(p, fetch, show, resources, outs, s);
    hide FineIn, ChildCoherent, ChildInScope, Compatible, Stage, Widens, Placed, CtxIn, MidEnv, Portable, Eval, RewriteValue, Matches;
    ChildMatches(p, fetch, show, tree, s, resources.Keys);
    RewritePreserves(CtxIn(p, fetch, show, s), v, tree.children[s], MidEnv(tree, resources.Keys));
  }

  lemma OutputsBacked(p: Parent, fetch: Fetch, show: Shower, tree: Tree, resources: map<string, Resource>, outs: Outs)
    requires Coherent(p, fetch, show, tree) && InScope(p, fetch, show, tree)
    requires Stage(p, fetch, show, Stacks(p), resources, outs)
    ensures Backed(outs, MidEnv(tree, resources.Keys), FlatEnv(tree, resources.Keys))
  {
    var mid, flat := MidEnv(tree, resources.Keys), FlatEnv(tree, resources.Keys);
    IdsFacts(p, fetch, show, tree, resources, outs);
    assert outs.Keys == Stacks(p);
    hide Coherent, InScope, Stage, Stacks, Pseudo, Backs, Eval, Tame, Resolves;
    forall s | s in outs ensures Backs(outs, mid, flat, s) {
      StackBacks(p, fetch, show, tree, resources, outs, s);
    }
  }

  lemma StackBacks(p: Parent, fetch: Fetch, show: Shower, tree: Tree, resources: map<string, Resource>, outs: Outs, s: string)
    requires Coherent(p, fetch, show, tree) && InScope(p, fetch, show, tree)
    requires Stage(p, fetch, show, Stacks(p), resources, outs)
    requires s in Stacks(p) && outs.Keys == Stacks(p)
    ensures Backs(outs, MidEnv(tree, resources.Keys), FlatEnv(tree, resources.Keys), s)
  {
    var mid, flat := MidEnv(tree, resources.Keys), FlatEnv(tree, resources.Keys);
    ParentWidens(p, fetch, show, tree, resources, outs);
    StageOf(p, fetch, show, resources, outs, s);
    OutputFacts(p, fetch, show, tree, resources, outs, s);
    hide FineIn, Compatible, Stage, Stacks, Placed, Widens, Eval, Tame, Resolves, Coherent, InScope, RewriteValue, Portable, CtxIn, ChildOf;
    forall k | k in outs[s]
      ensures Tame(outs[s][k]) && (Resolves(outs[s][k], flat) ==> Eval(outs[s][k], flat) == mid.outs[s][k])
    {
      var v := ChildOf(p, fetch, s).outputs[k];
      ChildValue(p, fetch, show, tree, resources, outs, s, v, outs[s][k]);
      if Resolves(outs[s][k], flat) {
        NotCaptured(outs[s][k], flat, mid);
      }
    }
  }

  lemma OutputFacts(p: Parent, fetch: Fetch, show: Shower, tree: Tree, resources: map<string, Resource>, outs: Outs, s: string)
    requires Coherent(p, fetch, show, tree) && InScope(p, fetch, show, tree)
    requires s in Stacks(p) && s in outs && Placed(p, fetch, show, s, resources, outs[s])
    ensures FineIn(p, fetch, show, s) && s in tree.parent.outs && s in tree.children
    ensures outs[s].Keys == tree.parent.outs[s].Keys == ChildOf(p, fetch, s).outputs.Keys
    ensures forall k :: k in outs[s] ==>
      && RewriteValue(CtxIn(p, fetch, show, s), ChildOf(p, fetch, s).outputs[k]) == Some(outs[s][k])
      && Movable(ChildOf(p, fetch, s).outputs[k], tree.children[s], tree.parent)
      && tree.parent.outs[s][k] == Eval(ChildOf(p, fetch, s).outputs[k], tree.children[s])
  {
    hide Fine, Eval, Portable, RewriteValue, RewriteResource, CtxIn, ChildOf, Compatible, Sound;
    assert ChildCoherent(p, fetch, show, tree, s) && ChildInScope(p, fetch, show, tree, s);
  }

  // ---------------------------------------------------------------- the theorem

  /** The outputs every stack exposes, as expressions of the flat template. */
  ghost function AllOuts(p: Parent, fetch: Fetch, show: Shower): Outs
    requires Compatible(p, fetch, show, Stacks(p))
  {
    map s | s in Stacks(p) :: OutsOf(p, fetch, show, s)
  }

  ghost function OutsOf(p: Parent, fetch: Fetch, show: Shower, s: string): map<string, Value>
    requires FineIn(p, fetch, show, s)
  {
    map k | k in ChildOf(p, fetch, s).outputs :: RewriteValue(CtxIn(p, fetch, show, s), ChildOf(p, fetch, s).outputs[k]).value
  }

  ghost function FlatIds(p: Parent, fetch: Fetch): set<string> {
    (p.resources.Keys - Stacks(p)) + BroughtBy(p, fetch, Stacks(p))
  }

  lemma StageOuts(p: Parent, fetch: Fetch, show: Shower, resources: map<string, Resource>, outs: Outs)
    requires Compatible(p, fetch, show, Stacks(p)) && Stage(p, fetch, show, Stacks(p), resources, outs)
    ensures outs == AllOuts(p, fetch, show) && resources.Keys == FlatIds(p, fetch)
  {
    hide Brings, FineIn, Placed, Compatible, BroughtBy, OutsOf, Stacks;
    forall s | s in Stacks(p) ensures FineIn(p, fetch, show, s) && outs[s] == OutsOf(p, fetch, show, s) {
      ExposedIs(p, fetch, show, resources, s, outs[s]);
    }
  }

  lemma ExposedIs(p: Parent, fetch: Fetch, show: Shower, resources: map<string, Resource>, s: string, outs: map<string, Value>)
    requires Placed(p, fetch, show, s, resources, outs)
    ensures FineIn(p, fetch, show, s) && outs == OutsOf(p, fetch, show, s)
  {
    hide Fine, RewriteValue, RewriteResource;
  }

  ghost predicate Means(w: Value, flat: Env, v: Value, env: Env) {
    Eval(w, flat) == Eval(v, env) && Resolves(w, flat)
  }

  /** Plain resources, inlined resources and outputs all mean what they did, and no name is left dangling. */
  ghost predicate SameMeaning(p: Parent, fetch: Fetch, tree: Tree, flat: Parent) {
    && flat.resources.Keys == FlatIds(p, fetch)
    && flat.outputs.Keys == p.outputs.Keys
    && (forall id :: id in p.resources && id !in Stacks(p) ==> PlainMeans(p, tree, flat, id))
    && (forall k :: k in p.outputs ==> OutputMeans(p, tree, flat, k))
    && (forall s :: s in Stacks(p) ==> ChildMeans(p, fetch, tree, flat, s))
  }

  ghost predicate PlainMeans(p: Parent, tree: Tree, flat: Parent, id: string) {
    && id in p.resources && id in flat.resources
    && Means(flat.resources[id].properties, FlatEnv(tree, flat.resources.Keys), p.resources[id].properties, tree.parent)
  }

  ghost predicate OutputMeans(p: Parent, tree: Tree, flat: Parent, k: string) {
    && k in p.outputs && k in flat.outputs
    && Means(flat.outputs[k], FlatEnv(tree, flat.resources.Keys), p.outputs[k], tree.parent)
  }

  ghost predicate ChildMeans(p: Parent, fetch: Fetch, tree: Tree, flat: Parent, s: string) {
    && s in p.resources && Fetches(p.resources[s], fetch)
    && forall rid :: rid in ChildOf(p, fetch, s).resources ==> RowMeans(p, fetch, tree, flat, s, rid)
  }

  /** The inlined resource means what the child's own does. */
  ghost predicate RowMeans(p: Parent, fetch: Fetch, tree: Tree, flat: Parent, s: string, rid: string) {
    && s in p.resources && Fetches(p.resources[s], fetch) && rid in ChildOf(p, fetch, s).resources
    && s in tree.children && s + rid in flat.resources
    && Means(flat.resources[s + rid].properties, FlatEnv(tree, flat.resources.Keys),
             ChildOf(p, fetch, s).resources[rid].properties, tree.children[s])
  }

  /** A template within scope, evaluated coherently, with its stacks inlined. */
  ghost predicate Setting(p: Parent, fetch: Fetch, show: Shower, tree: Tree, resources: map<string, Resource>, outs: Outs) {
    && Coherent(p, fetch, show, tree) && InScope(p, fetch, show, tree)
    && Stage(p, fetch, show, Stacks(p), resources, outs)
  }

  /** `v` can be rewritten, and the result means in the flat template what `u` means in `env` iff the reads are closed. */
  ghost predicate Carried(outs: Outs, show: Shower, tree: Tree, ids: set<string>, v: Value, u: Value, env: Env) {
    && RewriteOutputs(outs, v, show).Some?
    && (Means(RewriteOutputs(outs, v, show).value, FlatEnv(tree, ids), u, env) <==> ReadsClosed(outs, v, FlatEnv(tree, ids)))
  }

  lemma ParentValue(p: Parent, fetch: Fetch, show: Shower, tree: Tree, resources: map<string, Resource>, outs: Outs, v: Value)
    requires Setting(p, fetch, show, tree, resources, outs) && Sound(v, tree.parent)
    ensures Carried(outs, show, tree, resources.Keys, v, v, tree.parent)
  {
    hide Coherent, InScope, Stage, Eval, Tame, Resolves, Widens, Backed, RewriteOutputs, MidEnv, FlatEnv, Stacks, ReadsClosed;
    ParentWidens(p, fetch, show, tree, resources, outs);
    OutputsBacked(p, fetch, show, tree, resources, outs);
    NotCaptured(v, tree.parent, MidEnv(tree, resources.Keys));
    OutputsPreserve(outs, show, v, MidEnv(tree, resources.Keys), FlatEnv(tree, resources.Keys));
  }

  lemma ChildRow(p: Parent, fetch: Fetch, show: Shower, tree: Tree, resources: map<string, Resource>, outs: Outs, s: string, rid: string)
    requires Setting(p, fetch, show, tree, resources, outs) && s in Stacks(p)
    requires FineIn(p, fetch, show, s) && rid in ChildOf(p, fetch, s).resources
    ensures s + rid in resources && s in tree.children
    ensures Carried(outs, show, tree, resources.Keys, resources[s + rid].properties,
                    ChildOf(p, fetch, s).resources[rid].properties, tree.children[s])
  {
    var v := ChildOf(p, fetch, s).resources[rid].properties;
    StageOf(p, fetch, show, resources, outs, s);
    assert ChildInScope(p, fetch, show, tree, s);
    InlinedIs(p, fetch, show, resources, outs[s], s, rid);
    hide Coherent, InScope, Stage, Eval, Tame, Resolves, Widens, Backed, RewriteOutputs, MidEnv, FlatEnv, ReadsClosed,
      Stacks, FineIn, RewriteValue, Portable, CtxIn, ChildOf, Placed, ChildInScope;
    ChildValue(p, fetch, show, tree, resources, outs, s, v, resources[s + rid].properties);
    OutputsBacked(p, fetch, show, tree, resources, outs);
    OutputsPreserve(outs, show, resources[s + rid].properties, MidEnv(tree, resources.Keys), FlatEnv(tree, resources.Keys));
  }

  lemma InlinedIs(p: Parent, fetch: Fetch, show: Shower, resources: map<string, Resource>, outs: map<string, Value>, s: string, rid: string)
    requires Placed(p, fetch, show, s, resources, outs) && rid in ChildOf(p, fetch, s).resources
    ensures s + rid in resources
    ensures RewriteValue(CtxIn(p, fetch, show, s), ChildOf(p, fetch, s).resources[rid].properties) == Some(resources[s + rid].properties)
  {
    hide Fine, Exposed, RewriteValue;
  }

  lemma PlainRow(p: Parent, fetch: Fetch, show: Shower, tree: Tree, resources: map<string, Resource>, outs: Outs, id: string)
    requires Setting(p, fetch, show, tree, resources, outs) && id in p.resources && id !in Stacks(p)
    ensures id in resources
    ensures Carried(outs, show, tree, resources.Keys, resources[id].properties, p.resources[id].properties, tree.parent)
  {
    assert Sound(p.resources[id].properties, tree.parent) && resources[id] == p.resources[id];
    hide Coherent, InScope, Stage, Sound, Carried;
    ParentValue(p, fetch, show, tree, resources, outs, p.resources[id].properties);
  }

  lemma OutputRow(p: Parent, fetch: Fetch, show: Shower, tree: Tree, resources: map<string, Resource>, outs: Outs, k: string)
    requires Setting(p, fetch, show, tree, resources, outs) && k in p.outputs
    ensures Carried(outs, show, tree, resources.Keys, p.outputs[k], p.outputs[k], tree.parent)
  {
    assert Sound(p.outputs[k], tree.parent);
    hide Coherent, InScope, Stage, Sound, Carried;
    ParentValue(p, fetch, show, tree, resources, outs, p.outputs[k]);
  }

  lemma AnyRow(p: Parent, fetch: Fetch, show: Shower, tree: Tree, resources: map<string, Resource>, outs: Outs, id: string)
    requires Setting(p, fetch, show, tree, resources, outs) && id in resources
    ensures RewriteOutputs(outs, resources[id].properties, show).Some?
  {
    SettingFacts(p, fetch, show, tree, resources, outs);
    hide Setting, RewriteOutputs, Means, FineIn, Fetches, Stacks, ReadsClosed;
    if id in p.resources && id !in Stacks(p) {
      PlainRow(p, fetch, show, tree, resources, outs, id);
    } else {
      var s :| s in Stacks(p) && id in Brings(p, fetch, s);
      var rid :| rid in ChildOf(p, fetch, s).resources.Keys && id == s + rid;
      ChildRow(p, fetch, show, tree, resources, outs, s, rid);
    }
  }

  ghost predicate RewrittenTemplate(outs: Outs, show: Shower, resources: map<string, Resource>, outputs: map<string, Value>, flat: Parent) {
    && flat.resources.Keys == resources.Keys && flat.outputs.Keys == outputs.Keys
    && (forall id :: id in resources ==> RewriteOutputs(outs, resources[id].properties, show) == Some(flat.resources[id].properties))
    && (forall k :: k in outputs ==> RewriteOutputs(outs, outputs[k], show) == Some(flat.outputs[k]))
  }

  lemma RewriteTemplateIs(outs: Outs, resources: map<string, Resource>, outputs: map<string, Value>, show: Shower)
    requires forall id :: id in resources ==> RewriteOutputs(outs, resources[id].properties, show).Some?
    requires forall k :: k in outputs ==> RewriteOutputs(outs, outputs[k], show).Some?
    ensures var r := RewriteTemplate(outs, resources, outputs, show);
      r.Some? && RewrittenTemplate(outs, show, resources, outputs, r.value)
  {
    hide RewriteOutputs;
  }

  lemma SettingFacts(p: Parent, fetch: Fetch, show: Shower, tree: Tree, resources: map<string, Resource>, outs: Outs)
    requires Setting(p, fetch, show, tree, resources, outs)
    ensures resources.Keys == FlatIds(p, fetch)
    ensures forall s :: s in Stacks(p) ==>
      FineIn(p, fetch, show, s) && s in tree.children && s in p.resources && Fetches(p.resources[s], fetch)
  {}

  ghost predicate RowClosed(outs: Outs, tree: Tree, resources: map<string, Resource>, id: string)
    requires id in resources
  {
    ReadsClosed(outs, resources[id].properties, FlatEnv(tree, resources.Keys))
  }

  /** Nothing in the merged template reads an output that passes on what a parameter read from another stack. */
  ghost predicate AllReadsClosed(p: Parent, tree: Tree, resources: map<string, Resource>, outs: Outs) {
    && (forall id :: id in resources ==> RowClosed(outs, tree, resources, id))
    && (forall k :: k in p.outputs ==> ReadsClosed(outs, p.outputs[k], FlatEnv(tree, resources.Keys)))
  }

  lemma ChildFlat(p: Parent, fetch: Fetch, show: Shower, tree: Tree, resources: map<string, Resource>, outs: Outs, flat: Parent, s: string, rid: string)
    requires Setting(p, fetch, show, tree, resources, outs) && RewrittenTemplate(outs, show, resources, p.outputs, flat)
    requires s in Stacks(p) && FineIn(p, fetch, show, s) && rid in ChildOf(p, fetch, s).resources
    ensures s + rid in resources
    ensures RowClosed(outs, tree, resources, s + rid) <==> RowMeans(p, fetch, tree, flat, s, rid)
  {
    SettingFacts(p, fetch, show, tree, resources, outs);
    hide Setting, RewriteOutputs, Means, FineIn, ChildOf, FlatEnv, Stacks, ReadsClosed, FlatIds, Fetches;
    ChildRow(p, fetch, show, tree, resources, outs, s, rid);
  }

  lemma PlainFlat(p: Parent, fetch: Fetch, show: Shower, tree: Tree, resources: map<string, Resource>, outs: Outs, flat: Parent, id: string)
    requires Setting(p, fetch, show, tree, resources, outs) && RewrittenTemplate(outs, show, resources, p.outputs, flat)
    requires id in p.resources && id !in Stacks(p)
    ensures id in resources
    ensures RowClosed(outs, tree, resources, id) <==> PlainMeans(p, tree, flat, id)
  {
    hide Setting, RewriteOutputs, Means, FlatEnv, Stacks, ReadsClosed;
    PlainRow(p, fetch, show, tree, resources, outs, id);
  }

  lemma OutputFlat(p: Parent, fetch: Fetch, show: Shower, tree: Tree, resources: map<string, Resource>, outs: Outs, flat: Parent, k: string)
    requires Setting(p, fetch, show, tree, resources, outs) && RewrittenTemplate(outs, show, resources, p.outputs, flat)
    requires k in p.outputs
    ensures OutputMeans(p, tree, flat, k) <==> ReadsClosed(outs, p.outputs[k], FlatEnv(tree, resources.Keys))
  {
    hide Setting, RewriteOutputs, Means, FlatEnv, Stacks, ReadsClosed;
    OutputRow(p, fetch, show, tree, resources, outs, k);
  }

  lemma StackRows(p: Parent, fetch: Fetch, show: Shower, tree: Tree, resources: map<string, Resource>, outs: Outs, flat: Parent, s: string)
    requires Setting(p, fetch, show, tree, resources, outs) && RewrittenTemplate(outs, show, resources, p.outputs, flat)
    requires s in Stacks(p) && AllReadsClosed(p, tree, resources, outs)
    ensures ChildMeans(p, fetch, tree, flat, s)
  {
    SettingFacts(p, fetch, show, tree, resources, outs);
    hide Setting, RewrittenTemplate, RowMeans, FineIn, ChildOf, Fetches, FlatEnv, FlatIds, Stacks, RowClosed, ReadsClosed;
    forall rid | rid in ChildOf(p, fetch, s).resources ensures RowMeans(p, fetch, tree, flat, s, rid) {
      ChildFlat(p, fetch, show, tree, resources, outs, flat, s, rid);
    }
  }

  lemma TemplateKeys(p: Parent, fetch: Fetch, show: Shower, tree: Tree, resources: map<string, Resource>, outs: Outs, flat: Parent)
    requires Setting(p, fetch, show, tree, resources, outs) && RewrittenTemplate(outs, show, resources, p.outputs, flat)
    ensures flat.resources.Keys == FlatIds(p, fetch) && flat.outputs.Keys == p.outputs.Keys
  {
    hide RewriteOutputs;
    SettingFacts(p, fetch, show, tree, resources, outs);
  }

  lemma ClosedMeans(p: Parent, fetch: Fetch, show: Shower, tree: Tree, resources: map<string, Resource>, outs: Outs, flat: Parent)
    requires Setting(p, fetch, show, tree, resources, outs) && RewrittenTemplate(outs, show, resources, p.outputs, flat)
    requires AllReadsClosed(p, tree, resources, outs)
    ensures SameMeaning(p, fetch, tree, flat)
  {
    TemplateKeys(p, fetch, show, tree, resources, outs, flat);
    hide Setting, PlainMeans, OutputMeans, ChildMeans, FlatIds, FlatEnv, Stacks, RewrittenTemplate, RowClosed, ReadsClosed;
    forall id | id in p.resources && id !in Stacks(p) ensures PlainMeans(p, tree, flat, id) {
      PlainFlat(p, fetch, show, tree, resources, outs, flat, id);
    }
    forall k | k in p.outputs ensures OutputMeans(p, tree, flat, k) {
      OutputFlat(p, fetch, show, tree, resources, outs, flat, k);
    }
    forall s | s in Stacks(p) ensures ChildMeans(p, fetch, tree, flat, s) {
      StackRows(p, fetch, show, tree, resources, outs, flat, s);
    }
  }

  lemma MeansClosed(p: Parent, fetch: Fetch, show: Shower, tree: Tree, resources: map<string, Resource>, outs: Outs, flat: Parent)
    requires Setting(p, fetch, show, tree, resources, outs) && RewrittenTemplate(outs, show, resources, p.outputs, flat)
    requires SameMeaning(p, fetch, tree, flat)
    ensures AllReadsClosed(p, tree, resources, outs)
  {
    hide Setting, PlainMeans, OutputMeans, ChildMeans, FlatEnv, FlatIds, Stacks, RewrittenTemplate, RowClosed, ReadsClosed;
    forall id | id in resources ensures RowClosed(outs, tree, resources, id) {
      MeansRowClosed(p, fetch, show, tree, resources, outs, flat, id);
    }
    forall k | k in p.outputs ensures ReadsClosed(outs, p.outputs[k], FlatEnv(tree, resources.Keys)) {
      OutputFlat(p, fetch, show, tree, resources, outs, flat, k);
    }
  }

  lemma MeansRowClosed(p: Parent, fetch: Fetch, show: Shower, tree: Tree, resources: map<string, Resource>, outs: Outs, flat: Parent, id: string)
    requires Setting(p, fetch, show, tree, resources, outs) && RewrittenTemplate(outs, show, resources, p.outputs, flat)
    requires SameMeaning(p, fetch, tree, flat) && id in resources
    ensures RowClosed(outs, tree, resources, id)
  {
    SettingFacts(p, fetch, show, tree, resources, outs);
    hide Setting, RowMeans, PlainMeans, OutputMeans, FineIn, Fetches, FlatEnv, Stacks, RewrittenTemplate, RowClosed;
    if id in p.resources && id !in Stacks(p) {
      PlainFlat(p, fetch, show, tree, resources, outs, flat, id);
    } else {
      var s :| s in Stacks(p) && id in Brings(p, fetch, s);
      var rid :| rid in ChildOf(p, fetch, s).resources.Keys && id == s + rid;
      assert ChildMeans(p, fetch, tree, flat, s);
      ChildFlat(p, fetch, show, tree, resources, outs, flat, s, rid);
    }
  }

  lemma AllRewritten(p: Parent, fetch: Fetch, show: Shower, tree: Tree, resources: map<string, Resource>, outs: Outs)
    requires Setting(p, fetch, show, tree, resources, outs)
    ensures var r := RewriteTemplate(outs, resources, p.outputs, show);
      r.Some? && RewrittenTemplate(outs, show, resources, p.outputs, r.value)
  {
    hide Setting, RewriteOutputs, Means, FlatEnv, RewriteTemplate, ReadsClosed;
    forall id | id in resources ensures RewriteOutputs(outs, resources[id].properties, show).Some? {
      AnyRow(p, fetch, show, tree, resources, outs, id);
    }
    forall k | k in p.outputs ensures RewriteOutputs(outs, p.outputs[k], show).Some? {
      OutputRow(p, fetch, show, tree, resources, outs, k);
    }
    RewriteTemplateIs(outs, resources, p.outputs, show);
  }

  /** Every way of inlining the stacks (there is one) leaves only closed reads. */
  ghost predicate ReadsOnlyClosed(p: Parent, fetch: Fetch, show: Shower, tree: Tree) {
    forall resources: map<string, Resource>, outs: Outs ::
      Stage(p, fetch, show, Stacks(p), resources, outs) ==> AllReadsClosed(p, tree, resources, outs)
  }

  /**
   * Flattening preserves meaning. For every coherent evaluation of a parent and its nested stacks within
   * scope, the flat template is not refused; and evaluated on its own it gives every resource and every
   * output the value it had, with every name in it resolving, exactly when nothing reads an output that
   * passes on what a stack parameter read from another stack's output.
   */
  lemma FlattenPreserves(p: Parent, fetch: Fetch, show: Shower, tree: Tree, r: Option<Parent>)
    requires Coherent(p, fetch, show, tree) && InScope(p, fetch, show, tree) && FlatOf(p, fetch, show, r)
    ensures r.Some?
    ensures SameMeaning(p, fetch, tree, r.value) <==> ReadsOnlyClosed(p, fetch, show, tree)
  {
    assert Compatible(p, fetch, show, Stacks(p));
    var resources: map<string, Resource>, outs: Outs :|
      Stage(p, fetch, show, Stacks(p), resources, outs) && r == RewriteTemplate(outs, resources, p.outputs, show);
    hide Coherent, InScope, Stage, RewriteTemplate, SameMeaning, Stacks, AllReadsClosed, Compatible, RewrittenTemplate;
    AllRewritten(p, fetch, show, tree, resources, outs);
    if SameMeaning(p, fetch, tree, r.value) {
      MeansClosed(p, fetch, show, tree, resources, outs, r.value);
      forall a: map<string, Resource>, o: Outs | Stage(p, fetch, show, Stacks(p), a, o)
        ensures AllReadsClosed(p, tree, a, o)
      {
        StageUnique(p, fetch, show, resources, outs, a, o);
      }
    }
    if AllReadsClosed(p, tree, resources, outs) {
      ClosedMeans(p, fetch, show, tree, resources, outs, r.value);
    }
  }

  /** The result is fixed by the template and its children: no order of the stacks, and none within a map, matters. */
  lemma FlatUnique(p: Parent, fetch: Fetch, show: Shower, r1: Option<Parent>, r2: Option<Parent>)
    requires FlatOf(p, fetch, show, r1) && FlatOf(p, fetch, show, r2)
    ensures r1 == r2
  {
    if Compatible(p, fetch, show, Stacks(p)) {
      var a: map<string, Resource>, o1: Outs :|
        Stage(p, fetch, show, Stacks(p), a, o1) && r1 == RewriteTemplate(o1, a, p.outputs, show);
      var b: map<string, Resource>, o2: Outs :|
        Stage(p, fetch, show, Stacks(p), b, o2) && r2 == RewriteTemplate(o2, b, p.outputs, show);
      StageUnique(p, fetch, show, a, o1, b, o2);
    }
  }

  lemma StageUnique(p: Parent, fetch: Fetch, show: Shower, a: map<string, Resource>, o1: Outs, b: map<string, Resource>, o2: Outs)
    requires Compatible(p, fetch, show, Stacks(p))
    requires Stage(p, fetch, show, Stacks(p), a, o1) && Stage(p, fetch, show, Stacks(p), b, o2)
    ensures a == b && o1 == o2
  {
    StageOuts(p, fetch, show, a, o1);
    StageOuts(p, fetch, show, b, o2);
    hide Compatible, AllOuts, Stacks, Brings, Placed, FlatIds;
    forall id | id in a ensures a[id] == b[id] {
      if !(id in p.resources && id !in Stacks(p)) {
        var s :| s in Stacks(p) && id in Brings(p, fetch, s);
        assert Placed(p, fetch, show, s, a, o1[s]) && Placed(p, fetch, show, s, b, o2[s]);
        PlacedUnique(p, fetch, show, a, b, o1[s], s, id);
      }
    }
  }

  lemma PlacedUnique(p: Parent, fetch: Fetch, show: Shower, a: map<string, Resource>, b: map<string, Resource>, outs: map<string, Value>, s: string, id: string)
    requires Placed(p, fetch, show, s, a, outs) && Placed(p, fetch, show, s, b, outs) && id in Brings(p, fetch, s)
    ensures id in a && id in b && a[id] == b[id]
  {
    hide Exposed, RewriteResource, Fine;
    var rid :| rid in ChildOf(p, fetch, s).resources.Keys && id == s + rid;
  }
}
