/** The resolver that evaluates named conditions on first use and remembers them (cfn/intrinsics.go). */
module Resolver {
  import opened Conditions

  datatype Reason = SelfReference(name: string) | UndefinedCondition(name: string) | UndefinedName(name: string)

  datatype Finding = Finding(where: string, reason: Reason)

  predicate SelfFound(findings: seq<Finding>) {
    exists i :: 0 <= i < |findings| && findings[i].reason.SelfReference?
  }

  /** A solution of the equations, when one is at hand to compare with. */
  datatype Candidate = Unknown | Known(env: Env, rank: Rank)

  /** Nothing about to be asked for is still being evaluated: it is settled before all of those. */
  ghost predicate Clear(names: set<string>, busy: set<string>, sol: Candidate) {
    sol.Known? ==> forall n, b :: n in names && b in busy ==> n in sol.rank && b in sol.rank && sol.rank[n] < sol.rank[b]
  }

  ghost predicate ClearFor(t: Template, e: Expr, busy: set<string>, sol: Candidate) {
    sol.Known? ==> Clear(Reads(t, e, sol.env), busy, sol)
  }

  /** The answer is the value under the conditions known by now, all it asked for among them. */
  ghost predicate Answers(t: Template, e: Expr, conds: Env, v: Val) {
    Reads(t, e, conds) <= conds.Keys && v == Eval(t, e, conds)
  }

  ghost predicate Passed(t: Template, args: seq<Expr>, i: nat, stop: bool, conds: Env)
    requires i <= |args|
  {
    forall j :: 0 <= j < i ==> Answers(t, args[j], conds, Eval(t, args[j], conds)) && Truthy(Eval(t, args[j], conds)) != stop
  }

  ghost predicate Collected(t: Template, args: seq<Expr>, vs: seq<Val>, conds: Env)
    requires |vs| <= |args|
  {
    forall j :: 0 <= j < |vs| ==> Answers(t, args[j], conds, vs[j])
  }

  lemma AnswersStay(t: Template, e: Expr, conds: Env, more: Env, v: Val)
    requires Scoped(t, conds) && Scoped(t, more) && Extends(conds, more) && Answers(t, e, conds, v)
    ensures Answers(t, e, more, v)
  {
    StableUnder(t, e, conds, more);
  }

  lemma PassedStays(t: Template, args: seq<Expr>, i: nat, stop: bool, conds: Env, more: Env)
    requires i <= |args| && Scoped(t, conds) && Scoped(t, more) && Extends(conds, more) && Passed(t, args, i, stop, conds)
    ensures Passed(t, args, i, stop, more)
  {
    forall j | 0 <= j < i
      ensures Answers(t, args[j], more, Eval(t, args[j], more)) && Truthy(Eval(t, args[j], more)) != stop
    {
      AnswersStay(t, args[j], conds, more, Eval(t, args[j], conds));
    }
  }

  lemma CollectedStays(t: Template, args: seq<Expr>, vs: seq<Val>, conds: Env, more: Env)
    requires |vs| <= |args| && Scoped(t, conds) && Scoped(t, more) && Extends(conds, more) && Collected(t, args, vs, conds)
    ensures Collected(t, args, vs, more)
  {
    forall j | 0 <= j < |vs| ensures Answers(t, args[j], more, vs[j]) {
      AnswersStay(t, args[j], conds, more, vs[j]);
    }
  }

  /** What a scan is worth once the first `i` arguments are passed. */
  lemma {:induction false} ScanFrom(t: Template, args: seq<Expr>, i: nat, stop: bool, conds: Env)
    requires i <= |args| && Passed(t, args, i, stop, conds)
    ensures Scan(t, args, stop, conds) == Scan(t, args[i..], stop, conds)
    ensures ScanReads(t, args, stop, conds) <= conds.Keys + ScanReads(t, args[i..], stop, conds)
  {
    if i > 0 {
      assert Passed(t, args[1..], i - 1, stop, conds) by {
        forall j | 0 <= j < i - 1
          ensures Answers(t, args[1..][j], conds, Eval(t, args[1..][j], conds)) && Truthy(Eval(t, args[1..][j], conds)) != stop
        {
          assert args[1..][j] == args[j + 1];
        }
      }
      ScanFrom(t, args[1..], i - 1, stop, conds);
      assert args[1..][i - 1..] == args[i..];
    } else {
      assert args[0..] == args;
    }
  }

  /** A scan only asks for what the whole list asks for. */
  lemma {:induction false} ScanReadsFrom(t: Template, args: seq<Expr>, i: nat, stop: bool, env: Env)
    requires i <= |args| && forall j :: 0 <= j < i ==> Truthy(Eval(t, args[j], env)) != stop
    ensures ScanReads(t, args[i..], stop, env) <= ScanReads(t, args, stop, env)
    ensures i < |args| ==> Reads(t, args[i], env) <= ScanReads(t, args, stop, env)
  {
    if i > 0 {
      ScanReadsFrom(t, args[1..], i - 1, stop, env);
      assert args[1..][i - 1..] == args[i..];
      assert i < |args| ==> args[1..][i - 1] == args[i];
    } else {
      assert args[0..] == args;
    }
  }

  /** The next argument is clear when the whole scan is. */
  lemma ScanClear(t: Template, e: Expr, i: nat, stop: bool, conds: Env, busy: set<string>, sol: Candidate)
    requires (if stop then e.Or? else e.And?) && i < |e.args| && Passed(t, e.args, i, stop, conds)
    requires sol.Known? && Solution(t, sol.env, sol.rank) && Scoped(t, conds) && Extends(conds, sol.env)
    requires ClearFor(t, e, busy, sol)
    ensures ClearFor(t, e.args[i], busy, sol)
  {
    PassedStays(t, e.args, i, stop, conds, sol.env);
    ScanReadsFrom(t, e.args, i, stop, sol.env);
  }

  /** One more argument answered: either it ends the scan or it is passed. */
  lemma ScanAnswer(t: Template, e: Expr, i: nat, stop: bool, conds: Env, c: Val)
    requires (if stop then e.Or? else e.And?) && i < |e.args| && Passed(t, e.args, i, stop, conds)
    requires Answers(t, e.args[i], conds, c)
    ensures Truthy(c) == stop ==> Answers(t, e, conds, Bool(stop))
    ensures Truthy(c) != stop ==> Passed(t, e.args, i + 1, stop, conds)
  {
    ScanFrom(t, e.args, i, stop, conds);
    assert e.args[i..][0] == e.args[i];
  }

  lemma {:induction false} EachFrom(t: Template, args: seq<Expr>, vs: seq<Val>, conds: Env)
    requires |vs| == |args| && Collected(t, args, vs, conds)
    ensures EvalEach(t, args, conds) == vs && ReadsEach(t, args, conds) <= conds.Keys
  {
    if args != [] {
      assert Answers(t, args[0], conds, vs[0]);
      assert Collected(t, args[1..], vs[1..], conds) by {
        forall j | 0 <= j < |vs[1..]| ensures Answers(t, args[1..][j], conds, vs[1..][j]) {
          assert Answers(t, args[j + 1], conds, vs[j + 1]);
        }
      }
      EachFrom(t, args[1..], vs[1..], conds);
      assert vs == [vs[0]] + vs[1..];
    }
  }

  lemma {:induction false} EachReads(t: Template, args: seq<Expr>, i: nat, env: Env)
    requires i < |args|
    ensures Reads(t, args[i], env) <= ReadsEach(t, args, env)
  {
    if i > 0 {
      EachReads(t, args[1..], i - 1, env);
      assert args[1..][i - 1] == args[i];
    }
  }

  /** What a condition asks for is settled before the condition itself, so it is clear of it too. */
  lemma EnterClear(t: Template, name: string, busy: set<string>, sol: Candidate)
    requires name in t.conditions && Clear({name}, busy, sol)
    requires sol.Known? ==> Solution(t, sol.env, sol.rank)
    ensures ClearFor(t, t.conditions[name], busy + {name}, sol)
  {
    if sol.Known? {
      assert GroundedAt(t, sol.env, sol.rank, name);
    }
  }

  ghost predicate RanksBelow(rank: Rank, bound: nat) {
    forall n :: n in rank ==> rank[n] < bound
  }

  lemma AnswerGrows(t: Template, conds: Env, rank: Rank, name: string, v: Val)
    requires Grounded(t, conds, rank) && name in t.conditions && name !in conds
    requires Answers(t, t.conditions[name], conds, v) && RanksBelow(rank, |conds|)
    ensures Grounded(t, conds[name := Truthy(v)], rank[name := |conds|])
    ensures RanksBelow(rank[name := |conds|], |conds[name := Truthy(v)]|)
  {
    GroundedGrows(t, conds, rank, name);
    assert conds[name := Truthy(v)].Keys == conds.Keys + {name};
    assert |conds.Keys + {name}| == |conds.Keys| + 1;
  }

  /** Remembering the answer keeps the conditions within the solution. */
  lemma ExitFits(t: Template, name: string, conds: Env, v: Val, sol: Candidate)
    requires name in t.conditions && sol.Known? && Solution(t, sol.env, sol.rank)
    requires Scoped(t, conds) && Extends(conds, sol.env) && Answers(t, t.conditions[name], conds, v)
    ensures Extends(conds[name := Truthy(v)], sol.env)
  {
    AnswersStay(t, t.conditions[name], conds, sol.env, v);
    assert GroundedAt(t, sol.env, sol.rank, name);
  }

  // ---------------------------------------------------------------- the resolver's state, as a value

  /** The resolver's fields; `rank` is the order in which the remembered conditions were settled. */
  datatype Memo = Memo(conds: Env, busy: set<string>, where: string, findings: seq<Finding>, rank: Rank)

  ghost predicate ValidMemo(t: Template, m: Memo) {
    && Scoped(t, m.conds)
    && m.busy <= t.conditions.Keys
    && m.busy !! m.conds.Keys
    && (!SelfFound(m.findings) ==> Grounded(t, m.conds, m.rank) && RanksBelow(m.rank, |m.conds|))
  }

  ghost predicate Ready(t: Template, m: Memo, sol: Candidate) {
    && ValidMemo(t, m)
    && (sol.Known? ==> Solution(t, sol.env, sol.rank) && Extends(m.conds, sol.env) && !SelfFound(m.findings))
  }

  /** What every call leaves behind: more findings and conditions, the rest as it was. */
  ghost predicate Progress(m0: Memo, m1: Memo) {
    && m1.busy == m0.busy && m1.where == m0.where
    && m0.findings <= m1.findings
    && Extends(m0.conds, m1.conds)
  }

  /** The conditions neither remembered nor being evaluated: what every nested evaluation uses up. */
  ghost function Free(t: Template, m: Memo): set<string> {
    t.conditions.Keys - m.busy - m.conds.Keys
  }

  lemma ProgressFacts(t: Template, m0: Memo, m1: Memo, m2: Memo)
    requires Progress(m0, m1) && Progress(m1, m2)
    ensures Progress(m0, m2) && Free(t, m1) <= Free(t, m0) && Free(t, m2) <= Free(t, m0)
    ensures SelfFound(m0.findings) ==> SelfFound(m1.findings)
    ensures SelfFound(m1.findings) ==> SelfFound(m2.findings)
  {}

  lemma NoProgress(m: Memo)
    ensures Progress(m, m)
  {}

  ghost predicate Settles(t: Template, name: string, m: Memo, b: bool) {
    SelfFound(m.findings) || (b == Look(m.conds, name) && Defined(t, name) <= m.conds.Keys)
  }

  ghost predicate AnswersIn(t: Template, e: Expr, m: Memo, v: Val) {
    SelfFound(m.findings) || Answers(t, e, m.conds, v)
  }

  ghost predicate PassedIn(t: Template, args: seq<Expr>, i: nat, stop: bool, m: Memo) {
    SelfFound(m.findings) || (i <= |args| && Passed(t, args, i, stop, m.conds))
  }

  ghost predicate CollectedIn(t: Template, args: seq<Expr>, vs: seq<Val>, m: Memo) {
    SelfFound(m.findings) || (|vs| <= |args| && Collected(t, args, vs, m.conds))
  }

  lemma PassedNone(t: Template, args: seq<Expr>, stop: bool, m: Memo)
    ensures PassedIn(t, args, 0, stop, m)
  {}

  lemma CollectedNone(t: Template, args: seq<Expr>, m: Memo)
    ensures CollectedIn(t, args, [], m)
  {}

  lemma FoundMore(t: Template, m: Memo, reason: Reason, sol: Candidate)
    requires Ready(t, m, sol) && (sol.Known? ==> !reason.SelfReference?)
    ensures var m' := m.(findings := m.findings + [Finding(m.where, reason)]);
      && Ready(t, m', sol) && Progress(m, m')
      && (SelfFound(m'.findings) <==> SelfFound(m.findings) || reason.SelfReference?)
  {
    var findings := m.findings + [Finding(m.where, reason)];
    assert findings[|m.findings|].reason == reason;
    assert forall i :: 0 <= i < |m.findings| ==> findings[i] == m.findings[i];
    if SelfFound(m.findings) {
      var i :| 0 <= i < |m.findings| && m.findings[i].reason.SelfReference?;
      assert findings[i].reason.SelfReference?;
    }
  }

  /** Asking for a condition that is being evaluated never happens when the equations have a solution. */
  lemma BusyMeansNoSolution(t: Template, name: string, busy: set<string>, sol: Candidate)
    requires name in t.conditions && name in busy && Clear(Defined(t, name), busy, sol)
    ensures sol.Unknown?
  {}

  lemma Entered(t: Template, name: string, m: Memo, sol: Candidate)
    requires Ready(t, m, sol) && name in t.conditions && name !in m.busy && name !in m.conds
    requires Clear(Defined(t, name), m.busy, sol)
    ensures var m' := m.(busy := m.busy + {name}, where := "Condition " + name);
      Ready(t, m', sol) && ClearFor(t, t.conditions[name], m'.busy, sol) && Free(t, m') < Free(t, m)
  {
    EnterClear(t, name, m.busy, sol);
    var m' := m.(busy := m.busy + {name}, where := "Condition " + name);
    assert name in Free(t, m) && name !in Free(t, m');
  }

  lemma Left(t: Template, name: string, m: Memo, m1: Memo, m2: Memo, v: Val, sol: Candidate)
    requires Ready(t, m, sol) && name in t.conditions && name !in m.busy && name !in m.conds
    requires m1 == m.(busy := m.busy + {name}, where := "Condition " + name)
    requires Progress(m1, m2) && Ready(t, m2, sol) && AnswersIn(t, t.conditions[name], m2, v)
    ensures var m' := Memo(m2.conds[name := Truthy(v)], m2.busy - {name}, m.where, m2.findings, m2.rank[name := |m2.conds|]);
      Ready(t, m', sol) && Progress(m, m') && Settles(t, name, m', Truthy(v))
  {
    assert m2.busy - {name} == m.busy;
    if !SelfFound(m2.findings) {
      AnswerGrows(t, m2.conds, m2.rank, name, v);
      if sol.Known? {
        ExitFits(t, name, m2.conds, v, sol);
      }
    }
  }

  lemma ScanEnter(t: Template, e: Expr, i: nat, stop: bool, m0: Memo, m: Memo, sol: Candidate)
    requires (if stop then e.Or? else e.And?) && i < |e.args| && PassedIn(t, e.args, i, stop, m)
    requires Ready(t, m, sol) && Progress(m0, m) && ClearFor(t, e, m0.busy, sol)
    ensures ClearFor(t, e.args[i], m.busy, sol) && Free(t, m) <= Free(t, m0)
  {
    if sol.Known? {
      ScanClear(t, e, i, stop, m.conds, m.busy, sol);
    }
  }

  lemma ScanStep(t: Template, e: Expr, i: nat, stop: bool, m0: Memo, m: Memo, m': Memo, c: Val, sol: Candidate)
    requires (if stop then e.Or? else e.And?) && i < |e.args| && PassedIn(t, e.args, i, stop, m)
    requires Ready(t, m, sol) && Ready(t, m', sol) && Progress(m0, m) && Progress(m, m') && AnswersIn(t, e.args[i], m', c)
    ensures Progress(m0, m')
    ensures Truthy(c) == stop ==> AnswersIn(t, e, m', Bool(stop))
    ensures Truthy(c) != stop ==> PassedIn(t, e.args, i + 1, stop, m')
  {
    ProgressFacts(t, m0, m, m');
    if !SelfFound(m'.findings) {
      PassedStays(t, e.args, i, stop, m.conds, m'.conds);
      ScanAnswer(t, e, i, stop, m'.conds, c);
    }
  }

  lemma ScanEnds(t: Template, e: Expr, stop: bool, m: Memo)
    requires (if stop then e.Or? else e.And?) && PassedIn(t, e.args, |e.args|, stop, m)
    ensures AnswersIn(t, e, m, Bool(!stop))
  {
    if !SelfFound(m.findings) {
      ScanFrom(t, e.args, |e.args|, stop, m.conds);
      assert e.args[|e.args|..] == [];
    }
  }

  lemma ReadyIsValid(t: Template, m: Memo, sol: Candidate)
    requires Ready(t, m, sol)
    ensures ValidMemo(t, m)
  {}

  lemma EachEnter(t: Template, e: Expr, i: nat, m0: Memo, m: Memo, sol: Candidate)
    requires TakesEach(e) && i < |e.args|
    requires Progress(m0, m) && ClearFor(t, e, m0.busy, sol)
    ensures ClearFor(t, e.args[i], m.busy, sol) && Free(t, m) <= Free(t, m0)
  {
    if sol.Known? {
      EachReads(t, e.args, i, sol.env);
    }
  }

  lemma EachStep(t: Template, args: seq<Expr>, vs: seq<Val>, m0: Memo, m: Memo, m': Memo, c: Val, sol: Candidate)
    requires |vs| < |args| && CollectedIn(t, args, vs, m)
    requires Ready(t, m, sol) && Ready(t, m', sol) && Progress(m0, m) && Progress(m, m') && AnswersIn(t, args[|vs|], m', c)
    ensures Progress(m0, m')
    ensures CollectedIn(t, args, vs + [c], m')
  {
    ProgressFacts(t, m0, m, m');
    if !SelfFound(m'.findings) {
      CollectedStays(t, args, vs, m.conds, m'.conds);
    }
  }

  /** The expressions that resolve all their arguments: Equals and Not only when given as many as they take. */
  predicate TakesEach(e: Expr) {
    e.Host? || (e.Equals? && |e.args| == 2) || (e.Not? && |e.args| == 1)
  }

  function Combined(t: Template, e: Expr, vs: seq<Val>): Val
    requires TakesEach(e) && |vs| == |e.args|
  {
    match e
    case Host(op, _) => t.host(op, vs)
    case Equals(_) => Bool(Sprint(vs[0]) == Sprint(vs[1]))
    case Not(_) => Bool(!Truthy(vs[0]))
  }

  lemma EachEnds(t: Template, e: Expr, vs: seq<Val>, m: Memo)
    requires TakesEach(e) && |vs| == |e.args| && CollectedIn(t, e.args, vs, m)
    ensures AnswersIn(t, e, m, Combined(t, e, vs))
  {
    if !SelfFound(m.findings) {
      EachFrom(t, e.args, vs, m.conds);
    }
  }

  lemma BranchEnter(t: Template, e: Expr, m0: Memo, m: Memo, b: bool, sol: Candidate)
    requires e.If? && Ready(t, m, sol) && Progress(m0, m) && ClearFor(t, e, m0.busy, sol) && Settles(t, e.name, m, b)
    ensures e.name !in t.conditions ==> !Look(m.conds, e.name)
    ensures ClearFor(t, if b then e.yes else e.no, m.busy, sol)
  {}

  lemma BranchEnds(t: Template, e: Expr, b: bool, m: Memo, m': Memo, v: Val)
    requires e.If? && ValidMemo(t, m) && ValidMemo(t, m') && Progress(m, m') && Settles(t, e.name, m, b)
    requires AnswersIn(t, if b then e.yes else e.no, m', v)
    ensures AnswersIn(t, e, m', v)
  {
    ProgressFacts(t, m, m', m');
  }

  lemma ConditionClear(t: Template, e: Expr, busy: set<string>, sol: Candidate)
    requires (e.If? || e.Condition?) && ClearFor(t, e, busy, sol)
    ensures Clear(Defined(t, e.name), busy, sol)
  {}

  lemma LeafAnswers(t: Template, e: Expr, m: Memo, b: bool)
    ensures e.Literal? ==> AnswersIn(t, e, m, e.v)
    ensures e.Ref? ==> AnswersIn(t, e, m, RefValue(t, e.name))
    ensures e.Condition? && Settles(t, e.name, m, b) ==> AnswersIn(t, e, m, Bool(b))
    ensures e.Condition? && e.name !in t.conditions && ValidMemo(t, m) ==> AnswersIn(t, e, m, Bool(false))
    ensures ((e.Equals? && |e.args| != 2) || (e.Not? && |e.args| != 1)) ==> AnswersIn(t, e, m, Bool(false))
  {}

  ghost predicate Solvable(t: Template) {
    exists env: Env, rank: Rank :: Solution(t, env, rank)
  }

  ghost function BestCandidate(t: Template): (sol: Candidate)
    ensures sol.Known? ==> Solution(t, sol.env, sol.rank)
    ensures sol.Unknown? ==> !Solvable(t)
  {
    if env: Env, rank: Rank :| Solution(t, env, rank) then Known(env, rank) else Unknown
  }

  lemma FreshIsReady(t: Template, sol: Candidate)
    requires sol.Known? ==> Solution(t, sol.env, sol.rank)
    ensures Ready(t, Memo(map[], {}, "", [], map[]), sol)
  {}

  lemma NothingBusy(names: set<string>, sol: Candidate)
    ensures Clear(names, {}, sol)
  {}

  lemma ProgressKeeps(m0: Memo, m1: Memo)
    requires Progress(m0, m1)
    ensures m1.busy == m0.busy && m1.where == m0.where && m0.conds.Keys <= m1.conds.Keys
  {}

  /**
   * Every condition has a value. A self-reference is reported exactly when the equations have no solution;
   * otherwise what is remembered is the solution, which no order can change, and for a template without
   * cycles it is the plain recursive meaning.
   */
  ghost predicate Evaluated(t: Template, m: Memo) {
    && m.conds.Keys == t.conditions.Keys
    && (SelfFound(m.findings) <==> !Solvable(t))
    && (!SelfFound(m.findings) ==> Solution(t, m.conds, m.rank))
    && forall r: Rank :: Acyclic(t, r) ==> !SelfFound(m.findings) && m.conds == Meanings(t, r)
  }

  lemma AllEvaluated(t: Template, m: Memo, sol: Candidate)
    requires Ready(t, m, sol) && t.conditions.Keys <= m.conds.Keys
    requires sol.Unknown? ==> !Solvable(t)
    ensures Evaluated(t, m)
  {
    hide Meanings, Acyclic, Grounded, RanksBelow;
    if !SelfFound(m.findings) {
      assert Solution(t, m.conds, m.rank);
    }
    forall r: Rank | Acyclic(t, r) ensures !SelfFound(m.findings) && m.conds == Meanings(t, r) {
      AcyclicHasSolution(t, r);
      SolutionUnique(t, m.conds, m.rank, Meanings(t, r), r);
    }
  }

  lemma SolvedHolds(t: Template, m: Memo)
    requires Evaluated(t, m)
    ensures !SelfFound(m.findings) ==> ValuesHold(t, m.conds) && OperatorsHold(t, m.conds)
  {
    if !SelfFound(m.findings) {
      hide ValuesHold, OperatorsHold, Solution;
      SolutionValues(t, m.conds, m.rank);
      SolutionOperators(t, m.conds, m.rank);
    }
  }

  /** A condition that names itself only behind a short circuit is evaluated without a finding. */
  lemma ShortCircuitHidesCycle(t: Template, a: string)
    requires t.conditions == map[a := Or([Literal(Bool(true)), Expr.Condition(a)])]
    ensures a in Mentions(t, t.conditions[a]) && Solvable(t)
  {
    var args := [Literal(Bool(true)), Expr.Condition(a)];
    assert args[1..] == [Expr.Condition(a)];
    var env, rank: Rank := map[a := true], map[a := 0];
    assert Mentions(t, args[1]) == {a};
    assert MentionsEach(t, args[1..]) == {a} + MentionsEach(t, args[1..][1..]);
    assert ScanReads(t, args, true, env) == {};
    assert Reads(t, t.conditions[a], env) == {};
    assert GroundedAt(t, env, rank, a);
    assert Solution(t, env, rank);
  }

  /** `names` lists every condition of the template. */
  ghost predicate Lists(t: Template, names: seq<string>) {
    forall n :: n in names <==> n in t.conditions
  }

  ghost predicate Covered(names: seq<string>, i: nat, conds: Env) {
    i <= |names| && forall j :: 0 <= j < i ==> names[j] in conds
  }

  lemma CoveredNone(names: seq<string>, conds: Env)
    ensures Covered(names, 0, conds)
  {}

  lemma ListsMember(t: Template, names: seq<string>, i: nat)
    requires Lists(t, names) && i < |names|
    ensures names[i] in t.conditions
  {}

  lemma CoveredNext(names: seq<string>, i: nat, conds: Env, more: Env)
    requires Covered(names, i, conds) && i < |names| && names[i] in more && conds.Keys <= more.Keys
    ensures Covered(names, i + 1, more)
  {}

  lemma CoveredAll(t: Template, names: seq<string>, conds: Env)
    requires Covered(names, |names|, conds) && Lists(t, names)
    ensures t.conditions.Keys <= conds.Keys
  {
    forall n | n in t.conditions ensures n in conds {
      var j :| 0 <= j < |names| && names[j] == n;
    }
  }

  class Resolver {
    const t: Template
    var conds: Env
    var busy: set<string>
    var where: string
    var findings: seq<Finding>
    ghost var rank: Rank

    constructor (t: Template)
      ensures this.t == t && Now() == Memo(map[], {}, "", [], map[])
    {
      this.t := t;
      conds, busy, where, findings, rank := map[], {}, "", [], map[];
    }

    ghost function Now(): Memo
      reads this
    {
      Memo(conds, busy, where, findings, rank)
    }

    method Find(reason: Reason, ghost sol: Candidate)
      requires Ready(t, Now(), sol) && (sol.Known? ==> !reason.SelfReference?)
      modifies this`findings
      ensures Now() == old(Now()).(findings := old(findings) + [Finding(where, reason)])
      ensures Ready(t, Now(), sol) && Progress(old(Now()), Now())
      ensures SelfFound(findings) <==> SelfFound(old(findings)) || reason.SelfReference?
    {
      hide Ready, ValidMemo, Progress, Free, AnswersIn, PassedIn, CollectedIn, Settles, Clear, ClearFor, SelfFound, Defined, Truthy, Combined;
      FoundMore(t, Now(), reason, sol);
      findings := findings + [Finding(where, reason)];
    }

    /** `condition`: the remembered value, or the expression's value, remembered. */
    method Condition(name: string, ghost sol: Candidate) returns (b: bool)
      requires Ready(t, Now(), sol) && Clear(Defined(t, name), busy, sol)
      modifies this
      ensures Ready(t, Now(), sol) && Progress(old(Now()), Now()) && Settles(t, name, Now(), b)
      ensures name in t.conditions && name !in busy ==> name in conds
      ensures name !in old(conds) && name in old(busy) ==> !b && findings == old(findings) + [Finding(where, SelfReference(name))]
      ensures name !in old(conds) && name !in t.conditions ==> !b && findings == old(findings)
      decreases Free(t, Now()), 0
    {
      NoProgress(Now());
      if name in conds {
        return conds[name];
      }
      if name !in t.conditions {
        return false;
      }
      if name in busy {
        BusyMeansNoSolution(t, name, busy, sol);
        Find(SelfReference(name), sol);
        return false;
      }
      hide Ready, ValidMemo, Progress, Free, AnswersIn, PassedIn, CollectedIn, Settles, Clear, ClearFor, SelfFound, Defined, Truthy, Combined;
      Entered(t, name, Now(), sol);
      busy := busy + {name};
      var saved := where;
      where := "Condition " + name;
      ghost var entered := Now();
      var v := Resolve(t.conditions[name], sol);
      ghost var answered := Now();
      where := saved;
      busy := busy - {name};
      b := Truthy(v);
      rank := rank[name := |conds|];
      conds := conds[name := b];
      Left(t, name, old(Now()), entered, answered, v, sol);
    }

    /** `resolve` on a condition's expression. */
    method Resolve(e: Expr, ghost sol: Candidate) returns (v: Val)
      requires Ready(t, Now(), sol) && ClearFor(t, e, busy, sol)
      modifies this
      ensures Ready(t, Now(), sol) && Progress(old(Now()), Now()) && AnswersIn(t, e, Now(), v)
      ensures e.Literal? ==> findings == old(findings)
      ensures e.Ref? ==> findings == old(findings) + if e.name in t.known then [] else [Finding(where, UndefinedName(e.name))]
      ensures e.Condition? && e.name !in t.conditions ==> findings == old(findings) + [Finding(where, UndefinedCondition(e.name))]
      decreases Free(t, Now()), 1, e, 1
    {
      hide Ready, ValidMemo, Progress, Free, AnswersIn, PassedIn, CollectedIn, Settles, Clear, ClearFor, SelfFound, Defined, Truthy, Combined;
      NoProgress(Now());
      LeafAnswers(t, e, Now(), false);
      match e
      case Literal(w) => v := w;
      case Ref(name) =>
        if name !in t.known {
          Find(UndefinedName(name), sol);
          LeafAnswers(t, e, Now(), false);
        }
        v := RefValue(t, name);
      case Condition(name) =>
        if name in t.conditions {
          ConditionClear(t, e, busy, sol);
          var b := Condition(name, sol);
          LeafAnswers(t, e, Now(), b);
          v := Bool(b);
        } else {
          Find(UndefinedCondition(name), sol);
          ReadyIsValid(t, Now(), sol);
          LeafAnswers(t, e, Now(), false);
          v := Bool(false);
        }
      case If(_, _, _) => v := Choose(e, sol);
      case Equals(args) =>
        if |args| == 2 {
          v := Each(e, sol);
        } else {
          v := Bool(false);
        }
      case And(_) =>
        var b := ScanList(e, false, sol);
        v := Bool(b);
      case Or(_) =>
        var b := ScanList(e, true, sol);
        v := Bool(b);
      case Not(args) =>
        if |args| == 1 {
          v := Each(e, sol);
        } else {
          v := Bool(false);
        }
      case Host(_, _) => v := Each(e, sol);
    }

    /** `ifFn`: the condition first, then the branch it picks. */
    method Choose(e: Expr, ghost sol: Candidate) returns (v: Val)
      requires e.If? && Ready(t, Now(), sol) && ClearFor(t, e, busy, sol)
      modifies this
      ensures Ready(t, Now(), sol) && Progress(old(Now()), Now()) && AnswersIn(t, e, Now(), v)
      decreases Free(t, Now()), 1, e, 0
    {
      hide Ready, ValidMemo, Progress, Free, AnswersIn, PassedIn, CollectedIn, Settles, Clear, ClearFor, SelfFound, Defined, Truthy, Combined;
      ConditionClear(t, e, busy, sol);
      var b := Condition(e.name, sol);
      ghost var settled := Now();
      NoProgress(settled);
      ProgressFacts(t, old(Now()), settled, settled);
      BranchEnter(t, e, old(Now()), settled, b, sol);
      if b || (e.name !in t.conditions && Look(conds, e.name)) {
        v := Resolve(e.yes, sol);
      } else {
        v := Resolve(e.no, sol);
      }
      ReadyIsValid(t, settled, sol);
      ReadyIsValid(t, Now(), sol);
      BranchEnds(t, e, b, settled, Now(), v);
      ProgressFacts(t, old(Now()), settled, Now());
    }

    /** The loops of Fn::And and Fn::Or: left to right, up to the first argument worth `stop`. */
    method ScanList(e: Expr, stop: bool, ghost sol: Candidate) returns (r: bool)
      requires (if stop then e.Or? else e.And?) && Ready(t, Now(), sol) && ClearFor(t, e, busy, sol)
      modifies this
      ensures Ready(t, Now(), sol) && Progress(old(Now()), Now()) && AnswersIn(t, e, Now(), Bool(r))
      decreases Free(t, Now()), 1, e, 0
    {
      PassedNone(t, e.args, stop, Now());
      hide Ready, ValidMemo, Progress, Free, AnswersIn, PassedIn, CollectedIn, Settles, Clear, ClearFor, SelfFound, Defined, Truthy, Combined;
      NoProgress(Now());
      ghost var m0 := Now();
      var i := 0;
      while i < |e.args|
        invariant i <= |e.args|
        invariant Ready(t, Now(), sol) && Progress(m0, Now()) && PassedIn(t, e.args, i, stop, Now())
      {
        ghost var m := Now();
        ScanEnter(t, e, i, stop, m0, m, sol);
        var c := Resolve(e.args[i], sol);
        ScanStep(t, e, i, stop, m0, m, Now(), c, sol);
        if Truthy(c) == stop {
          return stop;
        }
        i := i + 1;
      }
      ScanEnds(t, e, stop, Now());
      r := !stop;
    }

    /** Every argument in order, then the value made of them. */
    method Each(e: Expr, ghost sol: Candidate) returns (v: Val)
      requires TakesEach(e) && Ready(t, Now(), sol) && ClearFor(t, e, busy, sol)
      modifies this
      ensures Ready(t, Now(), sol) && Progress(old(Now()), Now()) && AnswersIn(t, e, Now(), v)
      decreases Free(t, Now()), 1, e, 0
    {
      CollectedNone(t, e.args, Now());
      hide Ready, ValidMemo, Progress, Free, AnswersIn, PassedIn, CollectedIn, Settles, Clear, ClearFor, SelfFound, Defined, Truthy, Combined;
      NoProgress(Now());
      ghost var m0 := Now();
      var vs := [];
      var i := 0;
      while i < |e.args|
        invariant |vs| == i <= |e.args|
        invariant Ready(t, Now(), sol) && Progress(m0, Now()) && CollectedIn(t, e.args, vs, Now())
      {
        ghost var m := Now();
        EachEnter(t, e, i, m0, m, sol);
        var c := Resolve(e.args[i], sol);
        EachStep(t, e.args, vs, m0, m, Now(), c, sol);
        vs := vs + [c];
        i := i + 1;
      }
      EachEnds(t, e, vs, Now());
      v := Combined(t, e, vs);
    }

    /** `evalConditions`, for the names in any order. */
    method EvalConditions(names: seq<string>)
      requires Now() == Memo(map[], {}, "", [], map[]) && Lists(t, names)
      modifies this
      ensures busy == {} && where == "" && Evaluated(t, Now())
      ensures !SelfFound(findings) ==> ValuesHold(t, conds) && OperatorsHold(t, conds)
    {
      ghost var sol := BestCandidate(t);
      FreshIsReady(t, sol);
      hide Ready, ValidMemo, Progress, Free, SelfFound, Clear, Settles, Evaluated, Solvable, Defined, BestCandidate, Solution, Covered, Lists, ValuesHold, OperatorsHold;
      ghost var m0 := Now();
      NoProgress(m0);
      CoveredNone(names, conds);
      var i := 0;
      while i < |names|
        invariant i <= |names| && Ready(t, Now(), sol) && Progress(m0, Now())
        invariant busy == {} && where == "" && Covered(names, i, conds)
      {
        ghost var m := Now();
        NothingBusy(Defined(t, names[i]), sol);
        ListsMember(t, names, i);
        var b := Condition(names[i], sol);
        ProgressKeeps(m, Now());
        ProgressFacts(t, m0, m, Now());
        CoveredNext(names, i, m.conds, conds);
        i := i + 1;
      }
      CoveredAll(t, names, conds);
      AllEvaluated(t, Now(), sol);
      SolvedHolds(t, Now());
    }
  }
}
