/** Named conditions: what a template's condition equations mean, apart from any order of evaluation. */
module Conditions {

  datatype Val = Bool(b: bool) | Text(s: string) | Nil

  /**
   * Condition expressions. `Host` stands for the intrinsics that resolve their arguments in order and
   * compute a value from the results (Join, Select, FindInMap and the like).
   */
  datatype Expr =
    | Literal(v: Val)
    | Ref(name: string)
    | Condition(name: string)
    | If(name: string, yes: Expr, no: Expr)
    | Equals(args: seq<Expr>)
    | And(args: seq<Expr>)
    | Or(args: seq<Expr>)
    | Not(args: seq<Expr>)
    | Host(op: string, args: seq<Expr>)

  datatype Template = Template(conditions: map<string, Expr>, known: map<string, Val>, host: (string, seq<Val>) -> Val)

  type Env = map<string, bool>

  function Truthy(v: Val): bool {
    v == Bool(true)
  }

  /** `fmt.Sprint`. */
  function Sprint(v: Val): string {
    match v
    case Bool(b) => if b then "true" else "false"
    case Text(s) => s
    case Nil => "<nil>"
  }

  /** A name that is neither a parameter nor a pseudo-parameter stands for itself as a placeholder. */
  function RefValue(t: Template, name: string): Val {
    if name in t.known then t.known[name]
    else if "AWS::" <= name then Text("<" + name + ">")
    else Text("<ref:" + name + ">")
  }

  /** What a named condition is worth under `env`; an undefined one is false. */
  predicate Look(env: Env, name: string) {
    name in env && env[name]
  }

  function Eval(t: Template, e: Expr, env: Env): Val {
    match e
    case Literal(v) => v
    case Ref(name) => RefValue(t, name)
    case Condition(name) => Bool(Look(env, name))
    case If(name, yes, no) => if Look(env, name) then Eval(t, yes, env) else Eval(t, no, env)
    case Equals(args) =>
      var vs := EvalEach(t, args, env);
      Bool(|args| == 2 && Sprint(vs[0]) == Sprint(vs[1]))
    case And(args) => Bool(Scan(t, args, false, env))
    case Or(args) => Bool(Scan(t, args, true, env))
    case Not(args) =>
      var vs := EvalEach(t, args, env);
      Bool(|args| == 1 && !Truthy(vs[0]))
    case Host(op, args) => t.host(op, EvalEach(t, args, env))
  }

  /** Left to right until an argument is worth `stop`. */
  function Scan(t: Template, args: seq<Expr>, stop: bool, env: Env): bool {
    if args == [] then !stop
    else if Truthy(Eval(t, args[0], env)) == stop then stop
    else Scan(t, args[1..], stop, env)
  }

  function EvalEach(t: Template, args: seq<Expr>, env: Env): (vs: seq<Val>)
    ensures |vs| == |args|
  {
    if args == [] then [] else [Eval(t, args[0], env)] + EvalEach(t, args[1..], env)
  }

  // ---------------------------------------------------------------- what the operators mean

  /** The condition is remembered, and as true. */
  ghost predicate On(env: Env, name: string) {
    name in env && env[name]
  }

  /** The two values print alike. */
  ghost predicate Alike(a: Val, b: Val) {
    match (a, b)
    case (Text(x), Text(y)) => x == y
    case (Text(x), Bool(y)) => x == if y then "true" else "false"
    case (Bool(x), Text(y)) => y == if x then "true" else "false"
    case (Text(x), Nil) => x == "<nil>"
    case (Nil, Text(y)) => y == "<nil>"
    case _ => a == b
  }

  /** `v` is what the expression is worth, given what the conditions are: said of each operator by itself,
      with no order of evaluation. */
  ghost predicate Worth(t: Template, e: Expr, env: Env, v: Val) {
    match e
    case Literal(w) => v == w
    case Ref(name) =>
      if name in t.known then v == t.known[name]
      else v == Text(if "AWS::" <= name then "<" + name + ">" else "<ref:" + name + ">")
    case Condition(name) => v == Bool(On(env, name))
    case If(name, yes, no) => (On(env, name) ==> Worth(t, yes, env, v)) && (!On(env, name) ==> Worth(t, no, env, v))
    case And(args) => v == Bool(forall i :: 0 <= i < |args| ==> Worth(t, args[i], env, Bool(true)))
    case Or(args) => v == Bool(exists i :: 0 <= i < |args| && Worth(t, args[i], env, Bool(true)))
    case Not(args) => v == Bool(|args| == 1 && !Worth(t, args[0], env, Bool(true)))
    case Equals(args) =>
      v == Bool(|args| == 2 && exists x, y :: Worth(t, args[0], env, x) && Worth(t, args[1], env, y) && Alike(x, y))
    case Host(op, args) => exists vs: seq<Val> :: |vs| == |args| && (forall i :: 0 <= i < |args| ==> Worth(t, args[i], env, vs[i])) && v == t.host(op, vs)
  }

  lemma PrintAlike(a: Val, b: Val)
    ensures Sprint(a) == Sprint(b) <==> Alike(a, b)
  {
    assert |"true"| == 4 && |"false"| == 5 && |"<nil>"| == 5 && "<nil>"[0] == '<' && "false"[0] == 'f';
  }

  ghost predicate WorthItsValue(t: Template, e: Expr, env: Env) {
    forall v :: Worth(t, e, env, v) <==> v == Eval(t, e, env)
  }

  /** The evaluator computes exactly that. */
  lemma {:induction false} EvalIsWorth(t: Template, e: Expr, env: Env)
    ensures WorthItsValue(t, e, env)
    decreases e
  {
    hide WorthItsValue;
    match e
    case Literal(_) => LeafWorth(t, e, env);
    case Ref(_) => LeafWorth(t, e, env);
    case Condition(_) => LeafWorth(t, e, env);
    case If(_, yes, no) =>
      EvalIsWorth(t, yes, env);
      EvalIsWorth(t, no, env);
      IfWorth(t, e, env);
    case And(args) =>
      forall i | 0 <= i < |args| ensures WorthItsValue(t, args[i], env) { EvalIsWorth(t, args[i], env); }
      ScanWorth(t, e, env);
    case Or(args) =>
      forall i | 0 <= i < |args| ensures WorthItsValue(t, args[i], env) { EvalIsWorth(t, args[i], env); }
      ScanWorth(t, e, env);
    case Not(args) =>
      forall i | 0 <= i < |args| ensures WorthItsValue(t, args[i], env) { EvalIsWorth(t, args[i], env); }
      EachWorth(t, e, env);
    case Equals(args) =>
      forall i | 0 <= i < |args| ensures WorthItsValue(t, args[i], env) { EvalIsWorth(t, args[i], env); }
      EqualsWorth(t, e, env);
    case Host(_, args) =>
      forall i | 0 <= i < |args| ensures WorthItsValue(t, args[i], env) { EvalIsWorth(t, args[i], env); }
      HostWorth(t, e, env);
  }

  lemma LeafWorth(t: Template, e: Expr, env: Env)
    requires e.Literal? || e.Ref? || e.Condition?
    ensures WorthItsValue(t, e, env)
  {
  }

  lemma IfWorth(t: Template, e: Expr, env: Env)
    requires e.If? && WorthItsValue(t, e.yes, env) && WorthItsValue(t, e.no, env)
    ensures WorthItsValue(t, e, env)
  {
  }

  lemma ScanWorth(t: Template, e: Expr, env: Env)
    requires (e.And? || e.Or?) && forall i :: 0 <= i < |e.args| ==> WorthItsValue(t, e.args[i], env)
    ensures WorthItsValue(t, e, env)
  {
    ScanIs(t, e.args, e.Or?, env);
    assert forall i :: 0 <= i < |e.args| ==> (Worth(t, e.args[i], env, Bool(true)) <==> Truthy(Eval(t, e.args[i], env)));
    hide Scan, WorthItsValue;
    assert forall v :: Worth(t, e, env, v) <==> v == Eval(t, e, env);
    ValueIsWorth(t, e, env);
  }

  lemma ValueIsWorth(t: Template, e: Expr, env: Env)
    requires forall v :: Worth(t, e, env, v) <==> v == Eval(t, e, env)
    ensures WorthItsValue(t, e, env)
  {
  }

  lemma EachWorth(t: Template, e: Expr, env: Env)
    requires e.Not? && forall i :: 0 <= i < |e.args| ==> WorthItsValue(t, e.args[i], env)
    ensures WorthItsValue(t, e, env)
  {
    EachIs(t, e.args, env);
  }

  lemma EqualsWorth(t: Template, e: Expr, env: Env)
    requires e.Equals? && forall i :: 0 <= i < |e.args| ==> WorthItsValue(t, e.args[i], env)
    ensures WorthItsValue(t, e, env)
  {
    hide Alike, Sprint;
    EachIs(t, e.args, env);
    if |e.args| == 2 {
      var a, b := e.args[0], e.args[1];
      var x, y := Eval(t, a, env), Eval(t, b, env);
      PrintAlike(x, y);
      assert WorthItsValue(t, a, env) && WorthItsValue(t, b, env);
      assert Worth(t, a, env, x) && Worth(t, b, env, y);
      assert (exists v, w :: Worth(t, a, env, v) && Worth(t, b, env, w) && Alike(v, w)) <==> Alike(x, y);
    }
  }

  lemma HostWorth(t: Template, e: Expr, env: Env)
    requires e.Host? && forall i :: 0 <= i < |e.args| ==> WorthItsValue(t, e.args[i], env)
    ensures WorthItsValue(t, e, env)
  {
    EachIs(t, e.args, env);
    var all := EvalEach(t, e.args, env);
    forall vs: seq<Val> | |vs| == |e.args| && (forall i :: 0 <= i < |e.args| ==> Worth(t, e.args[i], env, vs[i])) ensures vs == all {
      assert forall i :: 0 <= i < |e.args| ==> vs[i] == all[i];
    }
    assert forall i :: 0 <= i < |e.args| ==> Worth(t, e.args[i], env, all[i]);
  }

  lemma {:induction false} ScanIs(t: Template, args: seq<Expr>, stop: bool, env: Env)
    ensures Scan(t, args, stop, env) == stop <==> exists i :: 0 <= i < |args| && Truthy(Eval(t, args[i], env)) == stop
    decreases |args|
  {
    if args != [] {
      ScanIs(t, args[1..], stop, env);
      assert forall i :: 0 <= i < |args| - 1 ==> args[1..][i] == args[i + 1];
      if i :| 0 <= i < |args| && Truthy(Eval(t, args[i], env)) == stop {
        if i > 0 {
          assert args[1..][i - 1] == args[i];
        }
      }
    }
  }

  lemma {:induction false} EachIs(t: Template, args: seq<Expr>, env: Env)
    ensures forall i :: 0 <= i < |args| ==> EvalEach(t, args, env)[i] == Eval(t, args[i], env)
    decreases |args|
  {
    if args != [] {
      EachIs(t, args[1..], env);
      forall i | 0 <= i < |args| ensures EvalEach(t, args, env)[i] == Eval(t, args[i], env) {
        if i > 0 {
          assert args[1..][i - 1] == args[i];
        }
      }
    }
  }

  // ---------------------------------------------------------------- what an evaluation reads

  function Defined(t: Template, name: string): set<string> {
    if name in t.conditions then {name} else {}
  }

  /** The defined conditions whose value is actually asked for while evaluating `e` under `env`. */
  function Reads(t: Template, e: Expr, env: Env): set<string> {
    match e
    case Literal(_) => {}
    case Ref(_) => {}
    case Condition(name) => Defined(t, name)
    case If(name, yes, no) =>
      Defined(t, name) + if Look(env, name) then Reads(t, yes, env) else Reads(t, no, env)
    case Equals(args) =>
      if |args| == 2 then ReadsEach(t, args, env) else {}
    case And(args) => ScanReads(t, args, false, env)
    case Or(args) => ScanReads(t, args, true, env)
    case Not(args) => if |args| == 1 then ReadsEach(t, args, env) else {}
    case Host(_, args) => ReadsEach(t, args, env)
  }

  function ScanReads(t: Template, args: seq<Expr>, stop: bool, env: Env): set<string> {
    if args == [] then {}
    else Reads(t, args[0], env) + if Truthy(Eval(t, args[0], env)) == stop then {} else ScanReads(t, args[1..], stop, env)
  }

  function ReadsEach(t: Template, args: seq<Expr>, env: Env): set<string> {
    if args == [] then {} else Reads(t, args[0], env) + ReadsEach(t, args[1..], env)
  }

  /** Same answers from both, for every name asked. */
  ghost predicate Agree(names: set<string>, e1: Env, e2: Env) {
    forall n :: n in names ==> Look(e1, n) == Look(e2, n)
  }

  /** Nothing outside the template's own conditions ever has a value. */
  ghost predicate Scoped(t: Template, env: Env) {
    env.Keys <= t.conditions.Keys
  }

  /** Evaluation depends on the answers it asks for and on nothing else. */
  lemma {:induction false} EvalLocal(t: Template, e: Expr, e1: Env, e2: Env)
    requires Scoped(t, e1) && Scoped(t, e2) && Agree(Reads(t, e, e1), e1, e2)
    ensures Eval(t, e, e1) == Eval(t, e, e2) && Reads(t, e, e1) == Reads(t, e, e2)
    decreases e
  {
    match e
    case Literal(_) =>
    case Ref(_) =>
    case Condition(name) =>
      assert name !in t.conditions ==> !Look(e1, name) && !Look(e2, name);
    case If(name, yes, no) =>
      assert Look(e1, name) == Look(e2, name);
      if Look(e1, name) {
        EvalLocal(t, yes, e1, e2);
      } else {
        EvalLocal(t, no, e1, e2);
      }
    case Equals(args) =>
      if |args| == 2 {
        EachLocal(t, args, e1, e2);
      }
    case And(args) => ScanLocal(t, args, false, e1, e2);
    case Or(args) => ScanLocal(t, args, true, e1, e2);
    case Not(args) =>
      if |args| == 1 {
        EachLocal(t, args, e1, e2);
      }
    case Host(_, args) => EachLocal(t, args, e1, e2);
  }

  lemma {:induction false} ScanLocal(t: Template, args: seq<Expr>, stop: bool, e1: Env, e2: Env)
    requires Scoped(t, e1) && Scoped(t, e2) && Agree(ScanReads(t, args, stop, e1), e1, e2)
    ensures Scan(t, args, stop, e1) == Scan(t, args, stop, e2)
    ensures ScanReads(t, args, stop, e1) == ScanReads(t, args, stop, e2)
    decreases args
  {
    if args != [] {
      EvalLocal(t, args[0], e1, e2);
      if Truthy(Eval(t, args[0], e1)) != stop {
        ScanLocal(t, args[1..], stop, e1, e2);
      }
    }
  }

  lemma {:induction false} EachLocal(t: Template, args: seq<Expr>, e1: Env, e2: Env)
    requires Scoped(t, e1) && Scoped(t, e2) && Agree(ReadsEach(t, args, e1), e1, e2)
    ensures EvalEach(t, args, e1) == EvalEach(t, args, e2) && ReadsEach(t, args, e1) == ReadsEach(t, args, e2)
    decreases args
  {
    if args != [] {
      EvalLocal(t, args[0], e1, e2);
      EachLocal(t, args[1..], e1, e2);
    }
  }

  // ---------------------------------------------------------------- solutions of the equations

  type Rank = map<string, nat>

  /** `env` gives `n` the value of its own expression, and asks only for conditions settled before it. */
  ghost predicate GroundedAt(t: Template, env: Env, rank: Rank, n: string)
    requires n in t.conditions && n in env && n in rank
  {
    && env[n] == Truthy(Eval(t, t.conditions[n], env))
    && forall m :: m in Reads(t, t.conditions[n], env) ==> m in env && m in rank && rank[m] < rank[n]
  }

  ghost predicate Grounded(t: Template, env: Env, rank: Rank) {
    && Scoped(t, env)
    && rank.Keys == env.Keys
    && forall n :: n in env ==> GroundedAt(t, env, rank, n)
  }

  /** A value for every condition, solving every equation without circular support. */
  ghost predicate Solution(t: Template, env: Env, rank: Rank) {
    Grounded(t, env, rank) && env.Keys == t.conditions.Keys
  }

  ghost predicate Extends(small: Env, big: Env) {
    forall n :: n in small ==> n in big && big[n] == small[n]
  }

  /** Settled values stay what they are when more conditions get a value. */
  lemma StableUnder(t: Template, e: Expr, env: Env, bigger: Env)
    requires Scoped(t, env) && Scoped(t, bigger) && Extends(env, bigger) && Reads(t, e, env) <= env.Keys
    ensures Eval(t, e, bigger) == Eval(t, e, env) && Reads(t, e, bigger) == Reads(t, e, env)
  {
    EvalLocal(t, e, env, bigger);
  }

  lemma GroundedGrows(t: Template, env: Env, rank: Rank, n: string)
    requires Grounded(t, env, rank) && n in t.conditions && n !in env
    requires Reads(t, t.conditions[n], env) <= env.Keys
    requires forall m :: m in rank ==> rank[m] < |env|
    ensures Grounded(t, env[n := Truthy(Eval(t, t.conditions[n], env))], rank[n := |env|])
  {
    var bigger, ranks := env[n := Truthy(Eval(t, t.conditions[n], env))], rank[n := |env|];
    assert Extends(env, bigger);
    StableUnder(t, t.conditions[n], env, bigger);
    forall m | m in env ensures GroundedAt(t, bigger, ranks, m) {
      assert GroundedAt(t, env, rank, m);
      StableUnder(t, t.conditions[m], env, bigger);
    }
  }

  lemma {:induction false} SolutionUniqueAt(t: Template, e1: Env, r1: Rank, e2: Env, r2: Rank, n: string)
    requires Solution(t, e1, r1) && Solution(t, e2, r2) && n in t.conditions
    ensures e1[n] == e2[n]
    decreases r1[n]
  {
    var e := t.conditions[n];
    assert GroundedAt(t, e1, r1, n) && GroundedAt(t, e2, r2, n);
    forall m | m in Reads(t, e, e1) ensures Look(e1, m) == Look(e2, m) {
      SolutionUniqueAt(t, e1, r1, e2, r2, m);
    }
    EvalLocal(t, e, e1, e2);
  }

  /** The equations have at most one solution. */
  lemma SolutionUnique(t: Template, e1: Env, r1: Rank, e2: Env, r2: Rank)
    requires Solution(t, e1, r1) && Solution(t, e2, r2)
    ensures e1 == e2
  {
    forall n | n in e1 ensures e1[n] == e2[n] {
      SolutionUniqueAt(t, e1, r1, e2, r2, n);
    }
  }

  // ---------------------------------------------------------------- what a solution makes of each operator

  /** The named conditions, as a list of operands. */
  function Named(names: seq<string>): seq<Expr> {
    seq(|names|, i requires 0 <= i < |names| => Condition(names[i]))
  }

  /** Every condition is on exactly if its expression is worth true. */
  ghost predicate ValuesHold(t: Template, env: Env) {
    forall n :: n in t.conditions ==> (On(env, n) <==> Worth(t, t.conditions[n], env, Bool(true)))
  }

  /** Not negates; And is all, Or is some; Equals compares two values as printed, If is the branch it picks; and Not
      and Equals with the wrong number of arguments are false. */
  ghost predicate OperatorsHold(t: Template, env: Env) {
    forall n :: n in t.conditions ==> OperatorHolds(t, env, t.conditions[n], On(env, n))
  }

  /** `b` is what the operator makes of conditions, literals and parameters. */
  ghost predicate OperatorHolds(t: Template, env: Env, e: Expr, b: bool) {
    NotHolds(env, e, b) && ListHolds(env, e, b) && EqualsHolds(t, e, b) && IfHolds(env, e, b)
  }

  ghost predicate NotHolds(env: Env, e: Expr, b: bool) {
    && (forall m :: e == Not([Condition(m)]) ==> b == !On(env, m))
    && (e.Not? && |e.args| != 1 ==> !b)
  }

  ghost predicate ListHolds(env: Env, e: Expr, b: bool) {
    && (forall ms :: e == And(Named(ms)) ==> (b <==> forall i :: 0 <= i < |ms| ==> On(env, ms[i])))
    && (forall ms :: e == Or(Named(ms)) ==> (b <==> exists i :: 0 <= i < |ms| && On(env, ms[i])))
  }

  ghost predicate EqualsHolds(t: Template, e: Expr, b: bool) {
    && (forall x, y :: e == Equals([Literal(x), Literal(y)]) ==> b == Alike(x, y))
    && (forall p, y :: e == Equals([Ref(p), Literal(y)]) && p in t.known ==> b == Alike(t.known[p], y))
    && (e.Equals? && |e.args| != 2 ==> !b)
  }

  ghost predicate IfHolds(env: Env, e: Expr, b: bool) {
    forall m, y, z :: e == If(m, Condition(y), Condition(z)) ==> b == if On(env, m) then On(env, y) else On(env, z)
  }

  lemma SolutionValues(t: Template, env: Env, rank: Rank)
    requires Solution(t, env, rank)
    ensures ValuesHold(t, env)
  {
    hide Worth, Eval;
    forall n | n in t.conditions ensures On(env, n) <==> Worth(t, t.conditions[n], env, Bool(true)) {
      assert GroundedAt(t, env, rank, n);
      EvalIsWorth(t, t.conditions[n], env);
    }
  }

  lemma SolutionOperators(t: Template, env: Env, rank: Rank)
    requires Solution(t, env, rank)
    ensures OperatorsHold(t, env)
  {
    SolutionValues(t, env, rank);
    hide Worth, Solution, OperatorHolds;
    forall n | n in t.conditions ensures OperatorHolds(t, env, t.conditions[n], On(env, n)) {
      OperatorIs(t, env, t.conditions[n]);
    }
  }

  lemma OperatorIs(t: Template, env: Env, e: Expr)
    ensures OperatorHolds(t, env, e, Worth(t, e, env, Bool(true)))
  {
    hide Worth, NotHolds, ListHolds, EqualsHolds, IfHolds;
    NotWorth(t, env, e);
    ListWorth(t, env, e);
    PairWorth(t, env, e);
    BranchWorth(t, env, e);
  }

  lemma NotWorth(t: Template, env: Env, e: Expr)
    ensures NotHolds(env, e, Worth(t, e, env, Bool(true)))
  {
  }

  lemma ListWorth(t: Template, env: Env, e: Expr)
    ensures ListHolds(env, e, Worth(t, e, env, Bool(true)))
  {
    hide Worth, Named, On;
    forall ms | e == And(Named(ms)) || e == Or(Named(ms))
      ensures e == And(Named(ms)) ==> (Worth(t, e, env, Bool(true)) <==> forall i :: 0 <= i < |ms| ==> On(env, ms[i]))
      ensures e == Or(Named(ms)) ==> (Worth(t, e, env, Bool(true)) <==> exists i :: 0 <= i < |ms| && On(env, ms[i]))
    {
      ListIs(t, env, ms);
    }
  }

  lemma PairWorth(t: Template, env: Env, e: Expr)
    ensures EqualsHolds(t, e, Worth(t, e, env, Bool(true)))
  {
    hide Worth, Alike;
    forall x, y | e == Equals([Literal(x), Literal(y)]) ensures Worth(t, e, env, Bool(true)) <==> Alike(x, y) {
      LiteralsAre(t, env, x, y);
    }
    forall p, y | e == Equals([Ref(p), Literal(y)]) && p in t.known ensures Worth(t, e, env, Bool(true)) <==> Alike(t.known[p], y) {
      ParameterIs(t, env, p, y);
    }
    if e.Equals? && |e.args| != 2 {
      WrongCount(t, env, e);
    }
  }

  lemma BranchWorth(t: Template, env: Env, e: Expr)
    ensures IfHolds(env, e, Worth(t, e, env, Bool(true)))
  {
  }

  lemma ListIs(t: Template, env: Env, ms: seq<string>)
    ensures Worth(t, And(Named(ms)), env, Bool(true)) <==> forall i :: 0 <= i < |ms| ==> On(env, ms[i])
    ensures Worth(t, Or(Named(ms)), env, Bool(true)) <==> exists i :: 0 <= i < |ms| && On(env, ms[i])
  {
    assert forall i :: 0 <= i < |ms| ==> Named(ms)[i] == Condition(ms[i]);
    assert forall i :: 0 <= i < |ms| ==> (Worth(t, Named(ms)[i], env, Bool(true)) <==> On(env, ms[i]));
  }

  lemma LiteralsAre(t: Template, env: Env, a: Val, b: Val)
    ensures Worth(t, Equals([Literal(a), Literal(b)]), env, Bool(true)) <==> Alike(a, b)
  {
    assert Worth(t, Literal(a), env, a) && Worth(t, Literal(b), env, b);
  }

  lemma ParameterIs(t: Template, env: Env, p: string, b: Val)
    requires p in t.known
    ensures Worth(t, Equals([Ref(p), Literal(b)]), env, Bool(true)) <==> Alike(t.known[p], b)
  {
    assert Worth(t, Ref(p), env, t.known[p]) && Worth(t, Literal(b), env, b);
  }

  lemma WrongCount(t: Template, env: Env, e: Expr)
    requires e.Equals? && |e.args| != 2
    ensures !Worth(t, e, env, Bool(true))
  {
  }

  // ---------------------------------------------------------------- templates without a cycle

  /** Every condition an expression names anywhere, evaluated or not. */
  function Mentions(t: Template, e: Expr): set<string> {
    match e
    case Literal(_) => {}
    case Ref(_) => {}
    case Condition(name) => Defined(t, name)
    case If(name, yes, no) => Defined(t, name) + Mentions(t, yes) + Mentions(t, no)
    case Equals(args) => MentionsEach(t, args)
    case And(args) => MentionsEach(t, args)
    case Or(args) => MentionsEach(t, args)
    case Not(args) => MentionsEach(t, args)
    case Host(_, args) => MentionsEach(t, args)
  }

  function MentionsEach(t: Template, args: seq<Expr>): set<string> {
    if args == [] then {} else Mentions(t, args[0]) + MentionsEach(t, args[1..])
  }

  lemma {:induction false} ReadsAreMentioned(t: Template, e: Expr, env: Env)
    ensures Reads(t, e, env) <= Mentions(t, e)
    decreases e
  {
    match e
    case Literal(_) =>
    case Ref(_) =>
    case Condition(_) =>
    case If(_, yes, no) =>
      ReadsAreMentioned(t, yes, env);
      ReadsAreMentioned(t, no, env);
    case Equals(args) => EachReadsAreMentioned(t, args, true, env);
    case And(args) => EachReadsAreMentioned(t, args, false, env);
    case Or(args) => EachReadsAreMentioned(t, args, true, env);
    case Not(args) => EachReadsAreMentioned(t, args, true, env);
    case Host(_, args) => EachReadsAreMentioned(t, args, true, env);
  }

  lemma {:induction false} EachReadsAreMentioned(t: Template, args: seq<Expr>, stop: bool, env: Env)
    ensures ReadsEach(t, args, env) <= MentionsEach(t, args)
    ensures ScanReads(t, args, stop, env) <= MentionsEach(t, args)
    decreases args
  {
    if args != [] {
      ReadsAreMentioned(t, args[0], env);
      EachReadsAreMentioned(t, args[1..], stop, env);
    }
  }

  /** The template's conditions refer to each other without a cycle. */
  ghost predicate Acyclic(t: Template, rank: Rank) {
    && rank.Keys == t.conditions.Keys
    && forall n, m :: n in t.conditions && m in Mentions(t, t.conditions[n]) ==> m in rank && rank[m] < rank[n]
  }

  /** The plain recursive meaning: the expression's value with each named condition read as its meaning. */
  ghost function Meaning(t: Template, rank: Rank, n: string): bool
    requires Acyclic(t, rank) && n in t.conditions
    decreases rank[n], 1
  {
    Truthy(Eval(t, t.conditions[n], Below(t, rank, n)))
  }

  ghost function Below(t: Template, rank: Rank, n: string): (env: Env)
    requires Acyclic(t, rank) && n in t.conditions
    ensures env.Keys == Mentions(t, t.conditions[n])
    decreases rank[n], 0
  {
    map m | m in Mentions(t, t.conditions[n]) :: Meaning(t, rank, m)
  }

  ghost function Meanings(t: Template, rank: Rank): (env: Env)
    requires Acyclic(t, rank)
    ensures env.Keys == t.conditions.Keys
  {
    map n | n in t.conditions :: Meaning(t, rank, n)
  }

  lemma MeaningIsGrounded(t: Template, rank: Rank, n: string)
    requires Acyclic(t, rank) && n in t.conditions
    ensures GroundedAt(t, Meanings(t, rank), rank, n)
  {
    var e, below, env := t.conditions[n], Below(t, rank, n), Meanings(t, rank);
    ReadsAreMentioned(t, e, below);
    assert forall m :: m in below ==> m in env && env[m] == Meaning(t, rank, m) == below[m];
    assert env[n] == Truthy(Eval(t, e, below));
    hide Meaning, Below, Meanings, Eval, Reads;
    EvalLocal(t, e, below, env);
  }

  /** Without a cycle the recursive meaning is the solution. */
  lemma AcyclicHasSolution(t: Template, rank: Rank)
    requires Acyclic(t, rank)
    ensures Solution(t, Meanings(t, rank), rank)
  {
    hide Meaning, Meanings, GroundedAt;
    forall n | n in t.conditions ensures GroundedAt(t, Meanings(t, rank), rank, n) {
      MeaningIsGrounded(t, rank, n);
    }
  }
}
