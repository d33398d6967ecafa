/** Nested stacks whose parameters read no other stack: an evaluation always exists, and flattening keeps it. */
module FlattenIndependent {
  import opened Wrappers
  import opened Expressions
  import opened Nested
  import opened NestedMeaning
  import opened Flatten
  import opened FlattenMeaning

  /** Every stack parameter resolves in the parent without the nested stacks. */
  ghost predicate Independent(p: Parent, fetch: Fetch, show: Shower, base: Env) {
    && Compatible(p, fetch, show, Stacks(p))
    && base.outs == map[] && base.ids == p.resources.Keys - Stacks(p)
    && (forall id :: id in p.resources ==> !Pseudo(id))
    && forall s :: s in Stacks(p) ==> FineIn(p, fetch, show, s) && ParamsSound(CtxIn(p, fetch, show, s), base)
  }

  ghost predicate ParamsSound(c: Ctx, base: Env) {
    forall q :: q in c.params ==> Sound(c.params[q], base)
  }

  /** The child of stack `s`, given the parent's values for its parameters. */
  ghost function ChildEnv(p: Parent, fetch: Fetch, show: Shower, base: Env, s: string): Env
    requires FineIn(p, fetch, show, s)
  {
    var c := CtxIn(p, fetch, show, s);
    Env(map q | q in c.params :: Eval(c.params[q], base), base.pseudo, c.ids, (rid, a) => base.att(s + rid, a), map[], map[], base.show, base.host)
  }

  ghost function OutputsIn(p: Parent, fetch: Fetch, show: Shower, base: Env, s: string): map<string, Value>
    requires FineIn(p, fetch, show, s)
  {
    map k | k in ChildOf(p, fetch, s).outputs :: Eval(ChildOf(p, fetch, s).outputs[k], ChildEnv(p, fetch, show, base, s))
  }

  /** Children first, then the parent with their outputs. */
  ghost function TreeOf(p: Parent, fetch: Fetch, show: Shower, base: Env): Tree
    requires Independent(p, fetch, show, base)
  {
    Tree(base.(outs := map s | s in Stacks(p) :: OutputsIn(p, fetch, show, base, s)),
         map s | s in Stacks(p) :: ChildEnv(p, fetch, show, base, s))
  }

  lemma BaseWidens(p: Parent, fetch: Fetch, show: Shower, base: Env)
    requires Independent(p, fetch, show, base)
    ensures Widens(base, TreeOf(p, fetch, show, base).parent)
  {
    hide FineIn, Compatible, ParamsSound, ChildEnv, OutputsIn;
  }

  lemma IndependentCoheres(p: Parent, fetch: Fetch, show: Shower, base: Env)
    requires Independent(p, fetch, show, base)
    ensures Coherent(p, fetch, show, TreeOf(p, fetch, show, base))
  {
    var tree := TreeOf(p, fetch, show, base);
    BaseWidens(p, fetch, show, base);
    assert forall s :: s in Stacks(p) ==> s in tree.children && s in tree.parent.outs;
    hide FineIn, Compatible, ParamsSound, ChildEnv, OutputsIn, Widens, ChildCoherent;
    forall s | s in Stacks(p) ensures ChildCoherent(p, fetch, show, tree, s) {
      ChildCoheres(p, fetch, show, base, tree, s);
    }
  }

  lemma ChildCoheres(p: Parent, fetch: Fetch, show: Shower, base: Env, tree: Tree, s: string)
    requires FineIn(p, fetch, show, s) && ParamsSound(CtxIn(p, fetch, show, s), base) && Widens(base, tree.parent)
    requires s in tree.children && tree.children[s] == ChildEnv(p, fetch, show, base, s)
    requires s in tree.parent.outs && tree.parent.outs[s] == OutputsIn(p, fetch, show, base, s)
    ensures ChildCoherent(p, fetch, show, tree, s)
  {
    hide Fine, Eval;
    var c := CtxIn(p, fetch, show, s);
    forall q | q in c.params ensures Eval(c.params[q], tree.parent) == Eval(c.params[q], base) {
      assert Sound(c.params[q], base);
      NotCaptured(c.params[q], base, tree.parent);
    }
  }

  // ---------------------------------------------------------------- every output is closed

  lemma {:induction false} AllClosed(outs: Outs, v: Value, flat: Env)
    requires forall s, k :: s in outs && k in outs[s] ==> Resolves(outs[s][k], flat)
    ensures ReadsClosed(outs, v, flat)
    decreases v
  {
    match v
    case Object(f) =>
      if !IsRef(v) && !IsGetAtt(v) {
        forall k | k in f ensures ReadsClosed(outs, f[k], flat) {
          AllClosed(outs, f[k], flat);
        }
      }
    case List(items) =>
      forall i | 0 <= i < |items| ensures ReadsClosed(outs, items[i], flat) {
        AllClosed(outs, items[i], flat);
      }
    case _ =>
  }

  lemma FlatMatches(p: Parent, fetch: Fetch, show: Shower, base: Env, tree: Tree, s: string, ids: set<string>)
    requires FineIn(p, fetch, show, s) && ParamsSound(CtxIn(p, fetch, show, s), base)
    requires s in tree.children && tree.children[s] == ChildEnv(p, fetch, show, base, s)
    requires s in tree.parent.outs && ChildInScope(p, fetch, show, tree, s) && tree.parent == base.(outs := tree.parent.outs)
    requires Widens(base, FlatEnv(tree, ids)) && Brings(p, fetch, s) <= ids
    ensures Matches(CtxIn(p, fetch, show, s), tree.children[s], FlatEnv(tree, ids))
  {
    var c, env, flat := CtxIn(p, fetch, show, s), tree.children[s], FlatEnv(tree, ids);
    forall rid | rid in c.ids ensures Renamed(c, env, flat, rid) {
      assert s + rid in Brings(p, fetch, s);
    }
    forall q | q in c.params ensures BoundIn(c, env, flat, q) {
      assert Sound(c.params[q], base);
      NotCaptured(c.params[q], base, flat);
    }
  }

  lemma FlatWidens(base: Env, tree: Tree, ids: set<string>)
    requires base.outs == map[] && tree.parent == base.(outs := tree.parent.outs) && base.ids <= ids
    requires forall id :: id in ids ==> !Pseudo(id)
    ensures Widens(base, FlatEnv(tree, ids))
  {}

  lemma OutputResolves(p: Parent, fetch: Fetch, show: Shower, base: Env, resources: map<string, Resource>, outs: Outs, s: string, k: string)
    requires Independent(p, fetch, show, base) && InScope(p, fetch, show, TreeOf(p, fetch, show, base))
    requires Stage(p, fetch, show, Stacks(p), resources, outs) && s in outs && k in outs[s]
    ensures Resolves(outs[s][k], FlatEnv(TreeOf(p, fetch, show, base), resources.Keys))
  {
    var tree := TreeOf(p, fetch, show, base);
    assert s in Stacks(p) && s in tree.children && s in tree.parent.outs;
    IndependentCoheres(p, fetch, show, base);
    IdsFacts(p, fetch, show, tree, resources, outs);
    FlatWidens(base, tree, resources.Keys);
    StageOf(p, fetch, show, resources, outs, s);
    OutputFacts(p, fetch, show, tree, resources, outs, s);
    assert tree.children[s] == ChildEnv(p, fetch, show, base, s);
    hide Coherent, Stage, Stacks, Placed, Widens, Compatible, FineIn, FlatEnv, CtxIn, ChildOf, ChildEnv, OutputsIn, TreeOf,
      RewriteValue, Portable, Resolves, ParamsSound, Brings, ChildInScope;
    FlatMatches(p, fetch, show, base, tree, s, resources.Keys);
    RewritePreserves(CtxIn(p, fetch, show, s), ChildOf(p, fetch, s).outputs[k], tree.children[s], FlatEnv(tree, resources.Keys));
  }

  /** When no stack parameter reads another stack, flattening within scope always preserves meaning. */
  lemma IndependentPreserved(p: Parent, fetch: Fetch, show: Shower, base: Env, r: Option<Parent>)
    requires Independent(p, fetch, show, base) && InScope(p, fetch, show, TreeOf(p, fetch, show, base))
    requires FlatOf(p, fetch, show, r)
    ensures r.Some? && SameMeaning(p, fetch, TreeOf(p, fetch, show, base), r.value)
  {
    var tree := TreeOf(p, fetch, show, base);
    IndependentCoheres(p, fetch, show, base);
    hide Independent, InScope, TreeOf, Coherent, FlatOf, SameMeaning, Stage, Stacks, Resolves, FlatEnv, ReadsClosed;
    forall resources: map<string, Resource>, outs: Outs | Stage(p, fetch, show, Stacks(p), resources, outs)
      ensures AllReadsClosed(p, tree, resources, outs)
    {
      forall s, k | s in outs && k in outs[s] ensures Resolves(outs[s][k], FlatEnv(tree, resources.Keys)) {
        OutputResolves(p, fetch, show, base, resources, outs, s, k);
      }
      forall v: Value ensures ReadsClosed(outs, v, FlatEnv(tree, resources.Keys)) {
        AllClosed(outs, v, FlatEnv(tree, resources.Keys));
      }
    }
    FlattenPreserves(p, fetch, show, tree, r);
  }
}
