/** Rewritten values mean what they meant in the child, and rewritten reads what the outputs are worth. */
module NestedMeaning {
  import opened Wrappers
  import opened Expressions
  import opened Nested

  ghost predicate SameHost(e1: Env, e2: Env) {
    forall raw: map<string, Value> :: !IsAmbient(Object(raw)) ==> e1.host(raw) == e2.host(raw)
  }

  // ---------------------------------------------------------------- substitution into the merged template

  /** No parameter takes the reference over, or only one of the same value. */
  ghost predicate Uncaptured(env: Env, id: string) {
    id in env.params ==> env.params[id] == env.att(id, "")
  }

  /** Every lookup in the value finds the same in both templates' mappings. */
  predicate ReadsAgree(v: Value, child: Env, maps: Mappings) {
    match v
    case Object(f) =>
      if IsRef(v) || IsGetAtt(v) then true
      else
        && (IsFind(v) && ThreeKeys(f["Fn::FindInMap"]) ==>
              MapRead(child.maps, Keys(f["Fn::FindInMap"], child)) == MapRead(maps, Keys(f["Fn::FindInMap"], child)))
        && forall k :: k in f ==> ReadsAgree(f[k], child, maps)
    case List(items) => forall i :: 0 <= i < |items| ==> ReadsAgree(items[i], child, maps)
    case _ => true
  }

  /** The merged template's name for one of the child's resources names that resource, and nothing hides it. */
  ghost predicate Renamed(c: Ctx, child: Env, merged: Env, rid: string) {
    var id := c.stack + rid;
    && rid != "" && !Pseudo(rid) && rid !in c.params
    && id != "" && !Pseudo(id) && id in merged.ids && Uncaptured(merged, id) && id !in merged.outs
    && forall a: string :: child.att(rid, a) == merged.att(id, a)
  }

  /** A parameter of the child is worth what the bound expression is worth in the merged template. */
  ghost predicate BoundIn(c: Ctx, child: Env, merged: Env, p: string)
    requires p in c.params
  {
    && p != "" && !Pseudo(p)
    && p in child.params && Tame(c.params[p]) && Resolves(c.params[p], merged)
    && Eval(c.params[p], merged) == child.params[p]
  }

  /** `merged` gives the child's names, once rewritten, the values `child` gives them. */
  ghost predicate Matches(c: Ctx, child: Env, merged: Env) {
    && child.ids == c.ids && child.params.Keys == c.params.Keys && child.outs == map[]
    && child.pseudo == merged.pseudo && child.show == merged.show && SameHost(child, merged)
    && (forall rid :: rid in c.ids ==> Renamed(c, child, merged, rid))
    && (forall p :: p in c.params ==> BoundIn(c, child, merged, p))
    && (forall id :: id in merged.ids || id in merged.outs ==> !Pseudo(id))
  }

  lemma RefPreserved(c: Ctx, v: Value, child: Env, merged: Env)
    requires IsRef(v) && v.fields["Ref"].Text? && Matches(c, child, merged) && RewriteRef(c, v).Some?
    ensures var w := RewriteRef(c, v).value;
      Eval(w, merged) == Eval(v, child) && Tame(w) && Resolves(w, merged)
  {
    var name := v.fields["Ref"].s;
    if name in c.ids {
      assert Renamed(c, child, merged, name);
      EvalRef(c.stack + name, merged);
    } else if name in c.params {
      assert BoundIn(c, child, merged, name);
    }
  }

  lemma GetAttPreserved(c: Ctx, v: Value, child: Env, merged: Env)
    requires IsGetAtt(v) && Literally(v.fields["Fn::GetAtt"]).Some? && Matches(c, child, merged) && RewriteGetAtt(c, v).Some?
    ensures var w := RewriteGetAtt(c, v).value;
      Eval(w, merged) == Eval(v, child) && Tame(w) && Resolves(w, merged)
  {
    LiteralSplits(v.fields["Fn::GetAtt"], c.show);
    var id, rest := Literally(v.fields["Fn::GetAtt"]).value.0, Literally(v.fields["Fn::GetAtt"]).value.1;
    if id in c.ids {
      assert Renamed(c, child, merged, id);
      EvalGetAtt(c.stack + id, rest, merged);
      assert child.att(id, rest) == merged.att(c.stack + id, rest);
    }
  }

  /**
   * Capture-avoiding substitution: a portable child value that is not refused evaluates in the merged
   * template to what it evaluates to in the child with its parameters bound, as long as its lookups find
   * the same there, and every name in it resolves.
   */
  lemma {:induction false} RewritePreserves(c: Ctx, v: Value, child: Env, merged: Env)
    requires Portable(v) && Matches(c, child, merged) && RewriteValue(c, v).Some? && ReadsAgree(v, child, merged.maps)
    ensures var w := RewriteValue(c, v).value;
      Eval(w, merged) == Eval(v, child) && Tame(w) && Resolves(w, merged)
    decreases v
  {
    match v
    case Object(f) =>
      if IsRef(v) {
        RefPreserved(c, v, child, merged);
      } else if IsGetAtt(v) {
        GetAttPreserved(c, v, child, merged);
      } else {
        RewritePlain(c, v);
        var w := RewriteValue(c, v).value;
        forall k | k in f
          ensures Eval(w.fields[k], merged) == Eval(f[k], child) && Tame(w.fields[k]) && Resolves(w.fields[k], merged)
        {
          RewritePreserves(c, f[k], child, merged);
        }
        if IsFind(v) {
          var a := f["Fn::FindInMap"];
          RewriteList(c, a);
          forall i | 0 <= i < 3
            ensures RewriteValue(c, a.items[i]).Some? ==> Eval(RewriteValue(c, a.items[i]).value, merged) == Eval(a.items[i], child)
          {
            RewritePreserves(c, a.items[i], child, merged);
          }
        }
        if IsFind(v) {
          FindPreserved(c, v, child, w, merged);
        } else {
          PlainPreserved(v, child, w, merged);
        }
      }
    case List(items) =>
      RewriteList(c, v);
      var w := RewriteValue(c, v).value;
      forall i | 0 <= i < |items|
        ensures Eval(w.items[i], merged) == Eval(items[i], child) && Tame(w.items[i]) && Resolves(w.items[i], merged)
      {
        RewritePreserves(c, items[i], child, merged);
      }
      EvalItems(w, merged, v, child);
    case _ =>
  }

  /** The keys are rewritten; what they find is the mappings' affair. */
  lemma FindPreserved(c: Ctx, v: Value, child: Env, w: Value, merged: Env)
    requires IsFind(v) && Structural(w) && IsFind(w) && !IsSub(w) && Portable(v) && child.show == merged.show
    requires RewrittenFields(c, v, w)
    requires forall k :: k in v.fields ==>
      Eval(w.fields[k], merged) == Eval(v.fields[k], child) && Tame(w.fields[k]) && Resolves(w.fields[k], merged)
    requires forall i :: 0 <= i < 3 ==>
      RewriteValue(c, v.fields["Fn::FindInMap"].items[i]).Some? ==>
        Eval(RewriteValue(c, v.fields["Fn::FindInMap"].items[i]).value, merged) == Eval(v.fields["Fn::FindInMap"].items[i], child)
    ensures Tame(w) && Resolves(w, merged)
    ensures Eval(w, merged) == Eval(v, child) <==>
      MapRead(child.maps, Keys(v.fields["Fn::FindInMap"], child)) == MapRead(merged.maps, Keys(v.fields["Fn::FindInMap"], child))
  {
    var a := v.fields["Fn::FindInMap"];
    assert RewriteValue(c, a).Some?;
    RewriteList(c, a);
    var b := RewriteValue(c, a).value;
    assert w.fields["Fn::FindInMap"] == b;
    SameKeys(a, child, b, merged);
    EvalFind(v, child);
    EvalFind(w, merged);
  }

  lemma PlainPreserved(v: Value, child: Env, w: Value, merged: Env)
    requires Plain(v) && Plain(w) && v.fields.Keys == w.fields.Keys && !IsAmbient(v) && !IsSub(w) && SameHost(child, merged)
    requires forall k :: k in v.fields ==>
      Eval(w.fields[k], merged) == Eval(v.fields[k], child) && Tame(w.fields[k]) && Resolves(w.fields[k], merged)
    ensures Eval(w, merged) == Eval(v, child) && Tame(w) && Resolves(w, merged)
  {
    forall raw: map<string, Value> | raw.Keys == w.fields.Keys ensures merged.host(raw) == child.host(raw) {
      SameKeysSameShape(raw, v.fields);
    }
    EvalFields(w, merged, v, child);
  }

  // ---------------------------------------------------------------- reads of outputs

  /** The stack's outputs as expressions of the merged template; one that resolves there is worth what the parent sees. */
  ghost predicate Backs(outs: Outs, parent: Env, flat: Env, s: string)
    requires s in outs && s in parent.outs
  {
    && outs[s].Keys == parent.outs[s].Keys
    && forall k :: k in outs[s] ==>
      Tame(outs[s][k]) && (Resolves(outs[s][k], flat) ==> Eval(outs[s][k], flat) == parent.outs[s][k])
  }

  /** Every output read is one whose expression resolves in the merged template. */
  predicate ReadsClosed(outs: Outs, v: Value, flat: Env) {
    match v
    case Object(f) =>
      if IsRef(v) then true
      else if IsGetAtt(v) then
        var parts := Literally(f["Fn::GetAtt"]);
        parts.Some? && IsOutput(outs, parts.value.0, parts.value.1) ==>
          Resolves(OutputOf(outs, parts.value.0, parts.value.1), flat)
      else forall k :: k in f ==> ReadsClosed(outs, f[k], flat)
    case List(items) => forall i :: 0 <= i < |items| ==> ReadsClosed(outs, items[i], flat)
    case _ => true
  }

  /** The value after rewriting: no name is left dangling exactly when the reads are closed, and then it is the same value. */
  ghost predicate Faithful(outs: Outs, show: Shower, v: Value, parent: Env, flat: Env) {
    && RewriteOutputs(outs, v, show).Some?
    && var w := RewriteOutputs(outs, v, show).value;
      Tame(w) && (Resolves(w, flat) <==> ReadsClosed(outs, v, flat))
      && (ReadsClosed(outs, v, flat) ==> Eval(w, flat) == Eval(v, parent))
  }

  ghost predicate Backed(outs: Outs, parent: Env, flat: Env) {
    && flat.params == parent.params && flat.pseudo == parent.pseudo && flat.host == parent.host && flat.att == parent.att
    && flat.maps == parent.maps && flat.show == parent.show
    && parent.ids <= flat.ids && flat.outs == map[] && outs.Keys == parent.outs.Keys && outs.Keys !! flat.ids
    && (forall id :: id in flat.ids || id in outs ==> !Pseudo(id))
    && (forall s :: s in outs ==> Backs(outs, parent, flat, s))
  }

  /** Rewriting the reads of outputs is never refused, and keeps every value whose reads are closed. */
  lemma {:induction false} OutputsPreserve(outs: Outs, show: Shower, v: Value, parent: Env, flat: Env)
    requires Tame(v) && Resolves(v, parent) && Backed(outs, parent, flat)
    ensures Faithful(outs, show, v, parent, flat)
    decreases v
  {
    match v
    case Object(f) =>
      if IsRef(v) {
        OutputsRef(outs, show, v);
      } else if IsGetAtt(v) {
        OutputsGetAtt(outs, show, v);
        var parts := Literally(f["Fn::GetAtt"]).value;
        if IsOutput(outs, parts.0, parts.1) {
          assert Backs(outs, parent, flat, parts.0);
        }
      } else {
        forall k | k in f ensures Faithful(outs, show, f[k], parent, flat) {
          OutputsPreserve(outs, show, f[k], parent, flat);
        }
        if IsFind(v) {
          var a := f["Fn::FindInMap"];
          forall i | 0 <= i < 3 ensures Faithful(outs, show, a.items[i], parent, flat) {
            OutputsPreserve(outs, show, a.items[i], parent, flat);
          }
          FindOutputs(outs, show, v, parent, flat);
        } else {
          PlainOutputs(outs, show, v, parent, flat);
        }
      }
    case List(items) =>
      forall i | 0 <= i < |items| ensures Faithful(outs, show, items[i], parent, flat) {
        OutputsPreserve(outs, show, items[i], parent, flat);
      }
      ListOutputs(outs, show, v, parent, flat);
    case _ =>
  }

  lemma PlainOutputs(outs: Outs, show: Shower, v: Value, parent: Env, flat: Env)
    requires Plain(v) && !IsSub(v) && flat.host == parent.host
    requires forall k :: k in v.fields ==> Faithful(outs, show, v.fields[k], parent, flat)
    ensures Faithful(outs, show, v, parent, flat)
  {
    assert OutputRead(outs, v, show).None?;
    assert RewriteOutputs(outs, v, show).Some?;
    OutputsPlain(outs, show, v);
    var w := RewriteOutputs(outs, v, show).value;
    if ReadsClosed(outs, v, flat) {
      EvalFields(w, flat, v, parent);
    }
  }

  lemma FindOutputs(outs: Outs, show: Shower, v: Value, parent: Env, flat: Env)
    requires IsFind(v) && Structural(v) && !IsSub(v) && Tame(v) && flat.maps == parent.maps && flat.show == parent.show
    requires Faithful(outs, show, v.fields["Fn::FindInMap"], parent, flat)
    requires forall i :: 0 <= i < 3 ==> Faithful(outs, show, v.fields["Fn::FindInMap"].items[i], parent, flat)
    ensures Faithful(outs, show, v, parent, flat)
  {
    var a := v.fields["Fn::FindInMap"];
    FindRewritten(outs, show, v);
    var w := RewriteOutputs(outs, v, show).value;
    var b := w.fields["Fn::FindInMap"];
    FindClosed(outs, v, flat);
    FindResolves(w, flat);
    if ReadsClosed(outs, v, flat) {
      FindItemsClosed(outs, a, flat);
      hide Eval, RewriteOutputs, ReadsClosed, Tame, Resolves;
      SameFind(v, parent, w, flat);
    }
  }

  lemma FindRewritten(outs: Outs, show: Shower, v: Value)
    requires IsFind(v) && Structural(v) && !IsSub(v) && Tame(v) && RewriteOutputs(outs, v.fields["Fn::FindInMap"], show).Some?
    ensures RewriteOutputs(outs, v, show).Some?
    ensures var w, a := RewriteOutputs(outs, v, show).value, v.fields["Fn::FindInMap"];
      && IsFind(w) && Structural(w) && !IsSub(w) && RewriteOutputs(outs, a, show) == Some(w.fields["Fn::FindInMap"])
      && ThreeKeys(a) && ThreeKeys(w.fields["Fn::FindInMap"])
      && forall i :: 0 <= i < 3 ==> RewriteOutputs(outs, a.items[i], show) == Some(w.fields["Fn::FindInMap"].items[i])
  {
    assert OutputRead(outs, v, show).None?;
    assert RewriteOutputs(outs, v, show).Some?;
    OutputsPlain(outs, show, v);
    OutputsList(outs, show, v.fields["Fn::FindInMap"]);
  }

  lemma FindClosed(outs: Outs, v: Value, flat: Env)
    requires IsFind(v)
    ensures ReadsClosed(outs, v, flat) <==> ReadsClosed(outs, v.fields["Fn::FindInMap"], flat)
  {
    assert !IsRef(v) && !IsGetAtt(v) && "Fn::FindInMap" in v.fields;
  }

  lemma FindItemsClosed(outs: Outs, a: Value, flat: Env)
    requires a.List? && ReadsClosed(outs, a, flat)
    ensures forall i :: 0 <= i < |a.items| ==> ReadsClosed(outs, a.items[i], flat)
  {
  }

  lemma FindResolves(w: Value, flat: Env)
    requires IsFind(w) && ThreeKeys(w.fields["Fn::FindInMap"])
    ensures Resolves(w, flat) <==> Resolves(w.fields["Fn::FindInMap"], flat)
    ensures !IsSub(w) ==> (Tame(w) <==> Tame(w.fields["Fn::FindInMap"]))
  {
    assert !IsRef(w) && !IsGetAtt(w) && "Fn::FindInMap" in w.fields;
  }

  /** Equal keys find the same in equal mappings. */
  lemma SameFind(v: Value, e1: Env, w: Value, e2: Env)
    requires IsFind(v) && IsFind(w) && e1.maps == e2.maps && e1.show == e2.show
    requires ThreeKeys(v.fields["Fn::FindInMap"]) && ThreeKeys(w.fields["Fn::FindInMap"])
    requires forall i :: 0 <= i < 3 ==> Eval(v.fields["Fn::FindInMap"].items[i], e1) == Eval(w.fields["Fn::FindInMap"].items[i], e2)
    ensures Eval(v, e1) == Eval(w, e2)
  {
    hide Eval, Keys, MapRead;
    SameKeys(v.fields["Fn::FindInMap"], e1, w.fields["Fn::FindInMap"], e2);
    EvalFind(v, e1);
    EvalFind(w, e2);
  }

  lemma ListOutputs(outs: Outs, show: Shower, v: Value, parent: Env, flat: Env)
    requires v.List? && forall i :: 0 <= i < |v.items| ==> Faithful(outs, show, v.items[i], parent, flat)
    ensures Faithful(outs, show, v, parent, flat)
  {
    assert RewriteOutputs(outs, v, show).Some?;
    OutputsList(outs, show, v);
    if ReadsClosed(outs, v, flat) {
      EvalItems(RewriteOutputs(outs, v, show).value, flat, v, parent);
    }
  }

  // ---------------------------------------------------------------- no capture

  /** Every name `small` knows is known to `big` with the same value. */
  ghost predicate Widens(small: Env, big: Env) {
    && big.params == small.params && big.pseudo == small.pseudo && big.host == small.host && big.att == small.att
    && big.maps == small.maps && big.show == small.show
    && small.ids <= big.ids
    && (forall id :: id in small.ids ==> id !in big.outs && id !in small.outs)
    && (forall s :: s in small.outs ==> s in big.outs && big.outs[s] == small.outs[s])
    && (forall id :: id in big.ids || id in big.outs ==> !Pseudo(id))
  }

  /** An expression all of whose names resolve is not captured by names added later. */
  lemma {:induction false} NotCaptured(v: Value, small: Env, big: Env)
    requires Tame(v) && Resolves(v, small) && Widens(small, big)
    ensures Eval(v, big) == Eval(v, small) && Resolves(v, big)
    decreases v
  {
    match v
    case Object(f) =>
      if IsRef(v) {
      } else if IsGetAtt(v) {
      } else {
        forall k | k in f ensures Eval(f[k], big) == Eval(f[k], small) && Resolves(f[k], big) {
          NotCaptured(f[k], small, big);
        }
        if IsFind(v) {
          var a := f["Fn::FindInMap"];
          forall i | 0 <= i < 3 ensures Eval(a.items[i], big) == Eval(a.items[i], small) {
            NotCaptured(a.items[i], small, big);
          }
          SameKeys(a, big, a, small);
          EvalFind(v, big);
          EvalFind(v, small);
        } else {
          EvalFields(v, big, v, small);
        }
      }
    case List(items) =>
      forall i | 0 <= i < |items| ensures Eval(items[i], big) == Eval(items[i], small) && Resolves(items[i], big) {
        NotCaptured(items[i], small, big);
      }
      EvalItems(v, big, v, small);
    case _ =>
  }
}
