/** Template values, the names they refer to, and what they evaluate to. */
module Expressions {
  import opened Wrappers

  /** A decoded JSON value; `Atom` is a number or a boolean. */
  datatype Value =
    | Null
    | Atom(a: int)
    | Text(s: string)
    | List(items: seq<Value>)
    | Object(fields: map<string, Value>)

  predicate IsRef(v: Value) {
    v.Object? && v.fields.Keys == {"Ref"}
  }

  predicate IsGetAtt(v: Value) {
    v.Object? && v.fields.Keys == {"Fn::GetAtt"}
  }

  predicate IsSub(v: Value) {
    v.Object? && v.fields.Keys == {"Fn::Sub"}
  }

  predicate IsFind(v: Value) {
    v.Object? && v.fields.Keys == {"Fn::FindInMap"}
  }

  /** The intrinsics that read the template's own conditions. */
  predicate IsAmbient(v: Value) {
    v.Object? && v.fields.Keys in [{"Fn::If"}, {"Condition"}]
  }

  function Ref(name: string): Value {
    Object(map["Ref" := Text(name)])
  }

  function GetAtt(id: string, attr: string): Value {
    Object(map["Fn::GetAtt" := List([Text(id), Text(attr)])])
  }

  /** `Fn::FindInMap` with literal keys. */
  function FindInMap(mapping: string, top: string, second: string): Value {
    Object(map["Fn::FindInMap" := List([Text(mapping), Text(top), Text(second)])])
  }

  /** The map's name and the two keys, whatever they are computed from. */
  predicate ThreeKeys(arg: Value) {
    arg.List? && |arg.items| == 3
  }

  predicate Pseudo(name: string) {
    "AWS::" <= name
  }

  function FirstDot(t: string): (i: nat)
    ensures i <= |t| && (i < |t| ==> t[i] == '.')
  {
    if t == [] || t[0] == '.' then 0 else 1 + FirstDot(t[1..])
  }

  /** `"id.attr"`, split at the first dot, the id not empty. */
  function SplitDot(t: string): Option<(string, string)> {
    var i := FirstDot(t);
    if 0 < i < |t| then Some((t[..i], t[i + 1..])) else None
  }

  /** The two literal forms of a Fn::GetAtt argument. */
  function Literally(arg: Value): Option<(string, string)> {
    match arg
    case List(items) =>
      if |items| == 2 && items[0].Text? && items[1].Text? && items[0].s != "" then Some((items[0].s, items[1].s)) else None
    case Text(t) => SplitDot(t)
    case _ => None
  }

  /** Refers by literal names only, and not through the text of a Fn::Sub; looks up three keys. */
  predicate Tame(v: Value) {
    match v
    case Object(f) =>
      if IsRef(v) then f["Ref"].Text?
      else if IsGetAtt(v) then Literally(f["Fn::GetAtt"]).Some?
      else !IsSub(v) && (IsFind(v) ==> ThreeKeys(f["Fn::FindInMap"])) && forall k :: k in f ==> Tame(f[k])
    case List(items) => forall i :: 0 <= i < |items| ==> Tame(items[i])
    case _ => true
  }

  /** Means the same in any template that gives its names the same values. */
  predicate Portable(v: Value) {
    match v
    case Object(f) =>
      if IsRef(v) then f["Ref"].Text?
      else if IsGetAtt(v) then Literally(f["Fn::GetAtt"]).Some?
      else !IsSub(v) && !IsAmbient(v) && (IsFind(v) ==> ThreeKeys(f["Fn::FindInMap"])) && forall k :: k in f ==> Portable(f[k])
    case List(items) => forall i :: 0 <= i < |items| ==> Portable(items[i])
    case _ => true
  }

  const OutputsDot: string := "Outputs."

  type Mappings = map<string, map<string, map<string, Value>>>

  /** A missing entry resolves to nothing. */
  function MapRead(maps: Mappings, keys: (string, string, string)): Value {
    if keys.0 in maps && keys.1 in maps[keys.0] && keys.2 in maps[keys.0][keys.1] then maps[keys.0][keys.1][keys.2] else Null
  }

  /**
   * What a template is evaluated against: its parameters and the pseudo-parameters, its resources and their
   * attributes ("" for Ref), the outputs of its nested stacks, its mappings, and `host` for every other
   * intrinsic, given its resolved argument (a one-key object that is no intrinsic comes back as itself).
   * `show` prints what is not a string.
   */
  datatype Env = Env(
    params: map<string, Value>,
    pseudo: map<string, Value>,
    ids: set<string>,
    att: (string, string) -> Value,
    outs: map<string, map<string, Value>>,
    maps: Mappings,
    show: Value -> string,
    host: map<string, Value> -> Value)

  function RefIn(env: Env, name: string): Value {
    if Pseudo(name) then (if name in env.pseudo then env.pseudo[name] else Text("<" + name + ">"))
    else if name in env.params then env.params[name]
    else if name in env.ids then env.att(name, "")
    else Text("<ref:" + name + ">")
  }

  /** `id` is a nested stack and `attr` names one of its outputs. */
  predicate IsOutput(outs: map<string, map<string, Value>>, id: string, attr: string) {
    id in outs && OutputsDot <= attr && attr[|OutputsDot|..] in outs[id]
  }

  function OutputOf(outs: map<string, map<string, Value>>, id: string, attr: string): Value
    requires IsOutput(outs, id, attr)
  {
    outs[id][attr[|OutputsDot|..]]
  }

  function AttIn(env: Env, id: string, attr: string): Value {
    if IsOutput(env.outs, id, attr) then OutputOf(env.outs, id, attr)
    else if id in env.ids then env.att(id, attr)
    else Text("<" + id + "." + attr + ">")
  }

  function Eval(v: Value, env: Env): Value
    decreases v, 1
  {
    match v
    case Object(f) =>
      if IsRef(v) then (if f["Ref"].Text? then RefIn(env, f["Ref"].s) else Null)
      else if IsGetAtt(v) then
        var parts := Literally(f["Fn::GetAtt"]);
        if parts.Some? then AttIn(env, parts.value.0, parts.value.1) else Null
      else if IsFind(v) then
        (if ThreeKeys(f["Fn::FindInMap"]) then MapRead(env.maps, Keys(f["Fn::FindInMap"], env)) else Null)
      else Shaped(FieldValues(v, env), env)
    case List(items) => List(Present(seq(|items|, i requires 0 <= i < |items| => Eval(items[i], env))))
    case _ => v
  }

  /** The keys of a lookup, resolved and printed. */
  function Keys(arg: Value, env: Env): (string, string, string)
    requires ThreeKeys(arg)
    decreases arg, 2
  {
    (Shown(Eval(arg.items[0], env), env), Shown(Eval(arg.items[1], env), env), Shown(Eval(arg.items[2], env), env))
  }

  function Shown(v: Value, env: Env): string {
    if v.Text? then v.s else env.show(v)
  }

  function FieldValues(v: Value, env: Env): (raw: map<string, Value>)
    requires v.Object?
    ensures raw.Keys == v.fields.Keys
    decreases v, 0
  {
    map k | k in v.fields :: Eval(v.fields[k], env)
  }

  function Shaped(raw: map<string, Value>, env: Env): Value {
    if |raw| == 1 then env.host(raw) else Object(map k | k in raw && raw[k] != Null :: raw[k])
  }

  /** AWS::NoValue removes the element that resolved to it. */
  function Present(vs: seq<Value>): seq<Value> {
    if vs == [] then [] else (if vs[0] == Null then [] else [vs[0]]) + Present(vs[1..])
  }

  /** Every name is one the template knows. */
  predicate Resolves(v: Value, env: Env) {
    match v
    case Object(f) =>
      if IsRef(v) then f["Ref"].Text? && KnownRef(env, f["Ref"].s)
      else if IsGetAtt(v) then
        var parts := Literally(f["Fn::GetAtt"]);
        parts.Some? && KnownAtt(env, parts.value.0, parts.value.1)
      else forall k :: k in f ==> Resolves(f[k], env)
    case List(items) => forall i :: 0 <= i < |items| ==> Resolves(items[i], env)
    case _ => true
  }

  predicate KnownRef(env: Env, name: string) {
    Pseudo(name) || name in env.params || name in env.ids
  }

  predicate KnownAtt(env: Env, id: string, attr: string) {
    Pseudo(id) || id in env.ids || IsOutput(env.outs, id, attr)
  }

  // ---------------------------------------------------------------- lemmas

  lemma SameKeysSameShape(f: map<string, Value>, g: map<string, Value>)
    requires f.Keys == g.Keys
    ensures |f| == |g|
    ensures IsRef(Object(f)) == IsRef(Object(g)) && IsGetAtt(Object(f)) == IsGetAtt(Object(g))
    ensures IsSub(Object(f)) == IsSub(Object(g)) && IsAmbient(Object(f)) == IsAmbient(Object(g)) && IsFind(Object(f)) == IsFind(Object(g))
  {
    assert |f| == |f.Keys| && |g| == |g.Keys|;
  }

  /** An object that is rewritten field by field. */
  predicate Structural(v: Value) {
    v.Object? && !IsRef(v) && !IsGetAtt(v)
  }

  /** And that is evaluated by its fields. */
  predicate Plain(v: Value) {
    Structural(v) && !IsFind(v)
  }

  /** An object evaluates by its fields: equal field values, equal object. */
  lemma EvalFields(v: Value, e1: Env, w: Value, e2: Env)
    requires Plain(v) && Plain(w) && v.fields.Keys == w.fields.Keys
    requires forall k :: k in v.fields ==> Eval(v.fields[k], e1) == Eval(w.fields[k], e2)
    requires forall raw: map<string, Value> :: raw.Keys == v.fields.Keys ==> e1.host(raw) == e2.host(raw)
    ensures Eval(v, e1) == Eval(w, e2)
  {
    hide Eval, FieldValues, Shaped, IsRef, IsGetAtt, IsFind;
    var r1, r2 := FieldValues(v, e1), FieldValues(w, e2);
    EvalPlain(v, e1);
    EvalPlain(w, e2);
    SameMap(r1, r2);
    ShapedAlike(r1, e1, e2);
  }

  lemma SameMap(r1: map<string, Value>, r2: map<string, Value>)
    requires r1.Keys == r2.Keys && forall k :: k in r1 ==> r1[k] == r2[k]
    ensures r1 == r2
  {}

  lemma EvalPlain(v: Value, env: Env)
    requires Plain(v)
    ensures Eval(v, env) == Shaped(FieldValues(v, env), env)
    ensures forall k :: k in v.fields ==> FieldValues(v, env)[k] == Eval(v.fields[k], env)
  {
    hide Shaped;
  }

  lemma ShapedAlike(raw: map<string, Value>, e1: Env, e2: Env)
    requires e1.host(raw) == e2.host(raw)
    ensures Shaped(raw, e1) == Shaped(raw, e2)
  {}

  /** A lookup is what the mappings hold under its keys. */
  lemma EvalFind(v: Value, env: Env)
    requires IsFind(v) && ThreeKeys(v.fields["Fn::FindInMap"])
    ensures Eval(v, env) == MapRead(env.maps, Keys(v.fields["Fn::FindInMap"], env))
  {
    assert !IsRef(v) && !IsGetAtt(v);
  }

  lemma SameKeys(a: Value, e1: Env, b: Value, e2: Env)
    requires ThreeKeys(a) && ThreeKeys(b) && e1.show == e2.show
    requires forall i :: 0 <= i < 3 ==> Eval(a.items[i], e1) == Eval(b.items[i], e2)
    ensures Keys(a, e1) == Keys(b, e2)
  {
    hide Eval;
  }

  lemma EvalItems(v: Value, e1: Env, w: Value, e2: Env)
    requires v.List? && w.List? && |v.items| == |w.items|
    requires forall i :: 0 <= i < |v.items| ==> Eval(v.items[i], e1) == Eval(w.items[i], e2)
    ensures Eval(v, e1) == Eval(w, e2)
  {
    assert seq(|v.items|, i requires 0 <= i < |v.items| => Eval(v.items[i], e1))
        == seq(|w.items|, i requires 0 <= i < |w.items| => Eval(w.items[i], e2));
  }

  lemma EvalRef(name: string, env: Env)
    ensures IsRef(Ref(name)) && Eval(Ref(name), env) == RefIn(env, name)
  {}

  lemma EvalGetAtt(id: string, attr: string, env: Env)
    requires id != ""
    ensures IsGetAtt(GetAtt(id, attr)) && Eval(GetAtt(id, attr), env) == AttIn(env, id, attr)
  {}
}
