/** When what a resource depends on is complete: its ancestors, and the queue of resources
    created whose wait has not run yet. */
module Readiness {
  import opened Graph
  import opened Stack

  /** A resource ready to be applied; `after` is everything it depends on, directly or not. */
  datatype Built = Built(res: Resource, after: set<Id>)

  // ---------------------------------------------------------------- ancestors

  /** A path along the dependency lists, of at least one step. */
  ghost predicate DependsPath(deps: map<Id, seq<Id>>, p: seq<Id>)
    decreases |p|
  {
    |p| >= 2 && p[0] in deps && p[1] in deps[p[0]] && (|p| > 2 ==> DependsPath(deps, p[1..]))
  }

  ghost predicate DependsOn(deps: map<Id, seq<Id>>, x: Id, y: Id) {
    exists p :: DependsPath(deps, p) && p[0] == x && p[|p| - 1] == y
  }

  function DepsOf(deps: map<Id, seq<Id>>, x: Id): seq<Id> {
    if x in deps then deps[x] else []
  }

  ghost function AllDeps(deps: map<Id, seq<Id>>): set<Id> {
    set x, i | x in deps && 0 <= i < |deps[x]| :: deps[x][i]
  }

  /** Every visited resource's own dependencies are visited too. */
  ghost predicate ClosedOn(deps: map<Id, seq<Id>>, out: set<Id>, nodes: set<Id>) {
    forall x, d :: x in nodes && d in DepsOf(deps, x) ==> d in out
  }

  lemma DependsStep(deps: map<Id, seq<Id>>, x: Id, d: Id, y: Id)
    requires d in DepsOf(deps, x)
    ensures DependsOn(deps, x, d)
    ensures DependsOn(deps, d, y) ==> DependsOn(deps, x, y)
  {
    assert DependsPath(deps, [x, d]);
    if p :| DependsPath(deps, p) && p[0] == d && p[|p| - 1] == y {
      assert ([x] + p)[1..] == p;
      assert DependsPath(deps, [x] + p);
    }
  }

  lemma {:induction false} ClosedReaches(deps: map<Id, seq<Id>>, out: set<Id>, p: seq<Id>)
    requires DependsPath(deps, p) && ClosedOn(deps, out, out) && (forall d :: d in DepsOf(deps, p[0]) ==> d in out)
    ensures p[|p| - 1] in out
    decreases |p|
  {
    if |p| > 2 {
      assert forall d :: d in DepsOf(deps, p[1]) ==> d in out;
      ClosedReaches(deps, out, p[1..]);
    }
  }

  /** `ancestors` is exactly the resources the dependency lists lead to, over any lists, with
      cycles too. */
  method Ancestors(deps: map<Id, seq<Id>>, id: Id) returns (out: set<Id>)
    ensures forall y :: y in out <==> DependsOn(deps, id, y)
  {
    out := Walk(deps, id, id, {});
    forall y | DependsOn(deps, id, y)
      ensures y in out
    {
      var p :| DependsPath(deps, p) && p[0] == id && p[|p| - 1] == y;
      ClosedReaches(deps, out, p);
    }
  }

  /** The visiting walk from `n`, given what is visited already. */
  method Walk(deps: map<Id, seq<Id>>, ghost id: Id, n: Id, visited: set<Id>) returns (out: set<Id>)
    requires visited <= AllDeps(deps)
    requires forall y :: y in visited ==> DependsOn(deps, id, y)
    requires n == id || n in visited
    ensures visited <= out <= AllDeps(deps)
    ensures forall y :: y in out ==> DependsOn(deps, id, y)
    ensures ClosedOn(deps, out, (out - visited) + {n})
    decreases AllDeps(deps) - visited, 1
  {
    out := WalkList(deps, id, n, DepsOf(deps, n), visited);
  }

  method WalkList(deps: map<Id, seq<Id>>, ghost id: Id, n: Id, rest: seq<Id>, visited: set<Id>) returns (out: set<Id>)
    requires visited <= AllDeps(deps)
    requires forall y :: y in visited ==> DependsOn(deps, id, y)
    requires n == id || DependsOn(deps, id, n)
    requires forall d :: d in rest ==> d in DepsOf(deps, n)
    ensures visited <= out <= AllDeps(deps)
    ensures forall y :: y in out ==> DependsOn(deps, id, y)
    ensures ClosedOn(deps, out, out - visited)
    ensures forall d :: d in rest ==> d in out
    decreases AllDeps(deps) - visited, 0, |rest|
  {
    out := visited;
    if rest == [] {
      return;
    }
    var d := rest[0];
    if d !in out {
      assert d in rest && d in AllDeps(deps);
      StepFrom(deps, id, n, d);
      out := Walk(deps, id, d, visited + {d});
    }
    ghost var mid := out;
    out := WalkList(deps, id, n, rest[1..], out);
    assert out - visited == (out - mid) + (mid - visited);
  }

  lemma StepFrom(deps: map<Id, seq<Id>>, id: Id, n: Id, d: Id)
    requires n == id || DependsOn(deps, id, n)
    requires d in DepsOf(deps, n)
    ensures DependsOn(deps, id, d)
  {
    DependsStep(deps, n, d, d);
    if n != id {
      var p :| DependsPath(deps, p) && p[0] == id && p[|p| - 1] == n;
      PathSnoc(deps, p, d);
    }
  }

  lemma {:induction false} PathSnoc(deps: map<Id, seq<Id>>, p: seq<Id>, d: Id)
    requires DependsPath(deps, p) && d in DepsOf(deps, p[|p| - 1])
    ensures DependsPath(deps, p + [d])
    decreases |p|
  {
    assert (p + [d])[1..] == p[1..] + [d];
    if |p| > 2 {
      PathSnoc(deps, p[1..], d);
    } else {
      assert DependsPath(deps, [p[1], d]);
      assert p[1..] + [d] == [p[1], d];
    }
  }

  // ---------------------------------------------------------------- order and ancestors together

  /** In a topological order, whatever a resource depends on comes before it, however many
      steps away. */
  lemma {:induction false} PathComesEarlier(raw: seq<Id>, deps: map<Id, seq<Id>>, ids: seq<Id>, p: seq<Id>, i: nat, j: nat)
    requires Topological(raw, deps, ids) && DependsPath(deps, p) && (forall x :: x in deps ==> x in raw)
    requires i < |ids| && j < |ids| && ids[i] == p[0] && ids[j] == p[|p| - 1]
    ensures j <= i
    decreases |p|
  {
    var k :| 0 <= k < |ids| && ids[k] == p[1];
    if p[1] != p[0] {
      assert Needs(raw, deps, ids[i], p[1]);
      assert ReadyAfter(raw, deps, ids[..i], ids[i]) && p[1] in ids[..i];
      var m :| 0 <= m < i && ids[..i][m] == p[1];
      assert m == k;
    }
    if |p| > 2 {
      PathComesEarlier(raw, deps, ids, p[1..], k, j);
    }
  }

  function ResourcesOf(bs: seq<Built>): (rs: seq<Resource>)
    ensures |rs| == |bs| && forall i :: 0 <= i < |bs| ==> rs[i] == bs[i].res
  {
    seq(|bs|, i requires 0 <= i < |bs| => bs[i].res)
  }

  /** `b` depends on the template resource that `on` was built from. */
  predicate Depends(b: Built, on: Built) {
    on.res.lid.base in b.after && on.res.lid.base != b.res.lid.base
  }

  /** The built resources in provisioning order: what one depends on is built before it. */
  ghost predicate OrderRespectsAfter(order: seq<Built>) {
    forall i, j :: 0 <= i < |order| && 0 <= j < |order| && Depends(order[i], order[j]) ==> j < i
  }

  /** Every built resource in template order of its resource, with that resource's ancestors. */
  ghost predicate BuiltFrom(deps: map<Id, seq<Id>>, ids: seq<Id>, order: seq<Built>, at: seq<nat>) {
    && |at| == |order|
    && (forall i :: 0 <= i < |order| ==>
          && at[i] < |ids| && order[i].res.lid.base == ids[at[i]]
          && forall y :: y in order[i].after <==> DependsOn(deps, ids[at[i]], y))
    && (forall i, j :: 0 <= i < j < |order| ==> at[i] <= at[j])
  }

  lemma BuiltOrderRespectsAfter(raw: seq<Id>, deps: map<Id, seq<Id>>, ids: seq<Id>, order: seq<Built>, at: seq<nat>)
    requires Topological(raw, deps, ids) && (forall x :: x in deps ==> x in raw) && BuiltFrom(deps, ids, order, at)
    ensures OrderRespectsAfter(order)
  {
    forall i, j | 0 <= i < |order| && 0 <= j < |order| && Depends(order[i], order[j])
      ensures j < i
    {
      var p :| DependsPath(deps, p) && p[0] == ids[at[i]] && p[|p| - 1] == ids[at[j]];
      PathComesEarlier(raw, deps, ids, p, at[i], at[j]);
    }
  }

  // ---------------------------------------------------------------- the queue of waits

  ghost function Lids(bs: seq<Built>): set<LogicalId> {
    set i | 0 <= i < |bs| :: bs[i].res.lid
  }

  function Due(pending: seq<Built>, after: set<Id>): seq<Built> {
    if pending == [] then []
    else (if pending[0].res.lid.base in after then [pending[0]] else []) + Due(pending[1..], after)
  }

  function NotDue(pending: seq<Built>, after: set<Id>): seq<Built> {
    if pending == [] then []
    else (if pending[0].res.lid.base in after then [] else [pending[0]]) + NotDue(pending[1..], after)
  }

  ghost predicate DistinctLids(bs: seq<Built>) {
    forall i, j :: 0 <= i < j < |bs| ==> bs[i].res.lid != bs[j].res.lid
  }

  lemma {:induction false} DueMembers(pending: seq<Built>, after: set<Id>)
    ensures forall b :: b in Due(pending, after) <==> b in pending && b.res.lid.base in after
    ensures forall b :: b in NotDue(pending, after) <==> b in pending && b.res.lid.base !in after
    decreases |pending|
  {
    if pending != [] {
      assert pending == [pending[0]] + pending[1..];
      DueMembers(pending[1..], after);
    }
  }

  /** The two halves keep every resource, in one of them only. */
  lemma {:induction false} DueSplits(pending: seq<Built>, after: set<Id>)
    requires DistinctLids(pending)
    ensures DistinctLids(Due(pending, after)) && DistinctLids(NotDue(pending, after))
    ensures Lids(Due(pending, after)) !! Lids(NotDue(pending, after))
    ensures Lids(pending) == Lids(Due(pending, after)) + Lids(NotDue(pending, after))
    decreases |pending|
  {
    hide Lids, DistinctLids;
    LidsNil();
    if pending != [] {
      var b, tail := pending[0], pending[1..];
      assert pending == [b] + tail;
      LidsCons(b, tail);
      DistinctCons(b, tail);
      DueSplits(tail, after);
      if b.res.lid.base in after {
        assert Due(pending, after) == [b] + Due(tail, after) && NotDue(pending, after) == NotDue(tail, after);
        LidsCons(b, Due(tail, after));
        DistinctCons(b, Due(tail, after));
      } else {
        assert NotDue(pending, after) == [b] + NotDue(tail, after) && Due(pending, after) == Due(tail, after);
        LidsCons(b, NotDue(tail, after));
        DistinctCons(b, NotDue(tail, after));
      }
    }
  }

  lemma LidsNil()
    ensures Lids([]) == {} && DistinctLids([])
  {
  }

  lemma LidsCons(b: Built, bs: seq<Built>)
    ensures Lids([b] + bs) == {b.res.lid} + Lids(bs)
  {
    var all := [b] + bs;
    assert all[0] == b;
    assert forall i :: 0 <= i < |bs| ==> all[i + 1] == bs[i];
    forall l | l in Lids(all)
      ensures l in {b.res.lid} + Lids(bs)
    {
      var i :| 0 <= i < |all| && all[i].res.lid == l;
      assert i > 0 ==> bs[i - 1].res.lid == l;
    }
    forall l | l in Lids(bs)
      ensures l in Lids(all)
    {
      var i :| 0 <= i < |bs| && bs[i].res.lid == l;
      assert all[i + 1].res.lid == l;
    }
  }

  lemma DistinctCons(b: Built, bs: seq<Built>)
    ensures DistinctLids([b] + bs) <==> DistinctLids(bs) && b.res.lid !in Lids(bs)
  {
    var all := [b] + bs;
    assert forall i :: 0 <= i < |bs| ==> all[i + 1] == bs[i];
    if DistinctLids(all) {
      forall i, j | 0 <= i < j < |bs|
        ensures bs[i].res.lid != bs[j].res.lid
      {
        assert all[i + 1].res.lid != all[j + 1].res.lid;
      }
      forall i | 0 <= i < |bs|
        ensures bs[i].res.lid != b.res.lid
      {
        assert all[0].res.lid != all[i + 1].res.lid;
      }
    }
  }

  class WaitQueue {
    var pending: seq<Built>

    constructor ()
      ensures pending == []
    {
      pending := [];
    }

    method Add(b: Built)
      modifies this
      ensures pending == old(pending) + [b]
    {
      pending := pending + [b];
    }

    /** Removes and returns what is pending among `after`, in creation order. */
    method TakeDue(after: set<Id>) returns (due: seq<Built>)
      modifies this
      ensures due == Due(old(pending), after) && pending == NotDue(old(pending), after)
    {
      if |pending| == 0 || |after| == 0 {
        NothingDue(pending, after);
        return [];
      }
      due := [];
      var keep: seq<Built> := [];
      for n := 0 to |pending|
        invariant pending == old(pending)
        invariant due + Due(pending[n..], after) == Due(pending, after)
        invariant keep + NotDue(pending[n..], after) == NotDue(pending, after)
      {
        assert pending[n..][0] == pending[n] && pending[n..][1..] == pending[n + 1..];
        if pending[n].res.lid.base in after {
          due := due + [pending[n]];
        } else {
          keep := keep + [pending[n]];
        }
      }
      assert pending[|pending|..] == [];
      pending := keep;
    }

    method TakeAll() returns (all: seq<Built>)
      modifies this
      ensures all == old(pending) && pending == []
    {
      all := pending;
      pending := [];
    }
  }

  lemma {:induction false} NothingDue(pending: seq<Built>, after: set<Id>)
    requires pending == [] || after == {}
    ensures Due(pending, after) == [] && NotDue(pending, after) == pending
    decreases |pending|
  {
    if pending != [] {
      NothingDue(pending[1..], after);
    }
  }
}
