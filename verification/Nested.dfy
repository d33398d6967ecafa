/** Rewriting a child template's values for the merged template, and the parent's reads of its outputs (cfn/nested.go). */
module Nested {
  import opened Wrappers
  import opened Expressions

  type Shower = Value -> string

  /** One stack being inlined: its id, its child's resource ids and bound parameters. */
  datatype Ctx = Ctx(stack: string, ids: set<string>, params: map<string, Value>, show: Shower)

  function JoinShown(items: seq<Value>, show: Shower): string {
    if items == [] then ""
    else
      var first := if items[0].Text? then items[0].s else show(items[0]);
      if |items| == 1 then first else first + "." + JoinShown(items[1..], show)
  }

  /** `splitGetAtt`: every list member after the first joins the attribute path. */
  function SplitGetAtt(arg: Value, show: Shower): Option<(string, string)> {
    match arg
    case List(items) =>
      if |items| >= 2 && items[0].Text? && items[0].s != "" then Some((items[0].s, JoinShown(items[1..], show))) else None
    case Text(t) => SplitDot(t)
    case _ => None
  }

  function RewriteRef(c: Ctx, v: Value): Option<Value>
    requires IsRef(v)
  {
    var arg := v.fields["Ref"];
    var name := if arg.Text? then arg.s else "";
    if name in c.ids then Some(Ref(c.stack + name))
    else if name in c.params then Some(c.params[name])
    else if Pseudo(name) then Some(v)
    else None
  }

  function RewriteGetAtt(c: Ctx, v: Value): Option<Value>
    requires IsGetAtt(v)
  {
    match SplitGetAtt(v.fields["Fn::GetAtt"], c.show)
    case None => None
    case Some((id, rest)) =>
      if id in c.ids then Some(GetAtt(c.stack + id, rest))
      else if Pseudo(id) then Some(v)
      else None
  }

  /** `rewriteValue`: prefix the child's own names, substitute its parameters, refuse anything else. */
  function RewriteValue(c: Ctx, v: Value): Option<Value> {
    match v
    case Object(f) =>
      if IsRef(v) then RewriteRef(c, v)
      else if IsGetAtt(v) then RewriteGetAtt(c, v)
      else if IsSub(v) then None
      else if forall k :: k in f ==> RewriteValue(c, f[k]).Some? then
        Some(Object(map k | k in f :: RewriteValue(c, f[k]).value))
      else None
    case List(items) =>
      if forall i :: 0 <= i < |items| ==> RewriteValue(c, items[i]).Some? then
        Some(List(seq(|items|, i requires 0 <= i < |items| && RewriteValue(c, items[i]).Some? => RewriteValue(c, items[i]).value)))
      else None
    case _ => Some(v)
  }

  type Outs = map<string, map<string, Value>>

  /** The output an expression reads, as far as the nested stacks inlined so far expose it. */
  function OutputRead(outs: Outs, v: Value, show: Shower): Option<(string, string)> {
    if IsGetAtt(v) then
      var parts := SplitGetAtt(v.fields["Fn::GetAtt"], show);
      if parts.Some? && parts.value.0 in outs && OutputsDot <= parts.value.1 then parts else None
    else None
  }

  /** `rewriteOutputRefs`: every read of a stack's output becomes the output's expression. */
  function RewriteOutputs(outs: Outs, v: Value, show: Shower): Option<Value> {
    match v
    case Object(f) =>
      var read := OutputRead(outs, v, show);
      if read.Some? then
        if IsOutput(outs, read.value.0, read.value.1) then Some(OutputOf(outs, read.value.0, read.value.1)) else None
      else if forall k :: k in f ==> RewriteOutputs(outs, f[k], show).Some? then
        Some(Object(map k | k in f :: RewriteOutputs(outs, f[k], show).value))
      else None
    case List(items) =>
      if forall i :: 0 <= i < |items| ==> RewriteOutputs(outs, items[i], show).Some? then
        Some(List(seq(|items|,
          i requires 0 <= i < |items| && RewriteOutputs(outs, items[i], show).Some? => RewriteOutputs(outs, items[i], show).value)))
      else None
    case _ => Some(v)
  }

  lemma LiteralSplits(arg: Value, show: Shower)
    requires Literally(arg).Some?
    ensures SplitGetAtt(arg, show) == Literally(arg)
  {
    if arg.List? {
      assert arg.items[1..] == [arg.items[1]];
    }
  }

  // ---------------------------------------------------------------- the shape of a rewritten value

  ghost predicate RewrittenFields(c: Ctx, v: Value, w: Value) {
    && v.Object? && w.Object? && w.fields.Keys == v.fields.Keys
    && forall k :: k in v.fields ==> RewriteValue(c, v.fields[k]) == Some(w.fields[k])
  }

  lemma RewritePlain(c: Ctx, v: Value)
    requires Structural(v) && RewriteValue(c, v).Some?
    ensures var w := RewriteValue(c, v).value;
      !IsSub(v) && Structural(w) && !IsSub(w) && IsAmbient(w) == IsAmbient(v) && IsFind(w) == IsFind(v) && RewrittenFields(c, v, w)
  {
    var w := RewriteValue(c, v).value;
    assert !IsSub(v);
    assert w.fields.Keys == v.fields.Keys;
    SameKeysSameShape(v.fields, w.fields);
  }

  lemma RewriteList(c: Ctx, v: Value)
    requires v.List? && RewriteValue(c, v).Some?
    ensures var w := RewriteValue(c, v).value;
      w.List? && |w.items| == |v.items| && forall i :: 0 <= i < |v.items| ==> RewriteValue(c, v.items[i]) == Some(w.items[i])
  {}

  ghost predicate OutputFields(outs: Outs, show: Shower, v: Value, w: Value) {
    && v.Object? && w.Object? && w.fields.Keys == v.fields.Keys
    && forall k :: k in v.fields ==> RewriteOutputs(outs, v.fields[k], show) == Some(w.fields[k])
  }

  lemma OutputsPlain(outs: Outs, show: Shower, v: Value)
    requires Structural(v) && RewriteOutputs(outs, v, show).Some?
    ensures var w := RewriteOutputs(outs, v, show).value;
      Structural(w) && IsSub(w) == IsSub(v) && IsFind(w) == IsFind(v) && OutputFields(outs, show, v, w)
  {
    var w := RewriteOutputs(outs, v, show).value;
    assert OutputRead(outs, v, show).None?;
    assert w.fields.Keys == v.fields.Keys;
    SameKeysSameShape(v.fields, w.fields);
  }

  lemma OutputsList(outs: Outs, show: Shower, v: Value)
    requires v.List? && RewriteOutputs(outs, v, show).Some?
    ensures var w := RewriteOutputs(outs, v, show).value;
      w.List? && |w.items| == |v.items|
      && forall i :: 0 <= i < |v.items| ==> RewriteOutputs(outs, v.items[i], show) == Some(w.items[i])
  {}

  lemma FieldsUntouched(outs: Outs, show: Shower, v: Value)
    requires v.Object? && OutputRead(outs, v, show).None?
    requires forall k :: k in v.fields ==> RewriteOutputs(outs, v.fields[k], show) == Some(v.fields[k])
    ensures RewriteOutputs(outs, v, show) == Some(v)
  {
    var w := RewriteOutputs(outs, v, show).value;
    assert w.fields.Keys == v.fields.Keys;
    assert w.fields == v.fields;
  }

  lemma OutputsRef(outs: Outs, show: Shower, v: Value)
    requires IsRef(v) && v.fields["Ref"].Text?
    ensures RewriteOutputs(outs, v, show) == Some(v)
  {
    assert OutputRead(outs, v, show).None?;
    FieldsUntouched(outs, show, v);
  }

  lemma OutputsLiteral(outs: Outs, show: Shower, arg: Value)
    requires Literally(arg).Some?
    ensures RewriteOutputs(outs, arg, show) == Some(arg)
  {
    if arg.List? {
      assert RewriteOutputs(outs, arg.items[0], show) == Some(arg.items[0]);
      assert RewriteOutputs(outs, arg.items[1], show) == Some(arg.items[1]);
      var w := RewriteOutputs(outs, arg, show).value;
      assert w.items == arg.items;
    }
  }

  lemma OutputsGetAtt(outs: Outs, show: Shower, v: Value)
    requires IsGetAtt(v) && Literally(v.fields["Fn::GetAtt"]).Some?
    ensures var parts := Literally(v.fields["Fn::GetAtt"]).value;
      RewriteOutputs(outs, v, show) ==
        if IsOutput(outs, parts.0, parts.1) then Some(OutputOf(outs, parts.0, parts.1))
        else if parts.0 in outs && OutputsDot <= parts.1 then None
        else Some(v)
  {
    var arg := v.fields["Fn::GetAtt"];
    LiteralSplits(arg, show);
    OutputsLiteral(outs, show, arg);
    if OutputRead(outs, v, show).None? {
      FieldsUntouched(outs, show, v);
    }
  }
}
