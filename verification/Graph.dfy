/** Provisioning order: Kahn's algorithm over template resources, the ready list kept sorted
    by template position. */
module Graph {

  /** A resource's logical id. */
  datatype Id = Id(name: string)

  datatype Ordering = Ordered(ids: seq<Id>) | Circular(stuck: seq<Id>)

  ghost predicate Distinct(ids: seq<Id>) {
    forall i, j :: 0 <= i < j < |ids| ==> ids[i] != ids[j]
  }

  /** `id` depends on resource `dep`.  Self-references and names that are not resources of the
      template do not count. */
  predicate Needs(raw: seq<Id>, deps: map<Id, seq<Id>>, id: Id, dep: Id) {
    id in raw && dep in raw && dep != id && id in deps && dep in deps[id]
  }

  // ---------------------------------------------------------------- what is promised

  /** A walk from a resource to what it depends on, and on. */
  ghost predicate Walk(raw: seq<Id>, deps: map<Id, seq<Id>>, c: seq<Id>)
    decreases |c|
  {
    && c != [] && c[0] in raw
    && (|c| > 1 ==> Needs(raw, deps, c[0], c[1]) && Walk(raw, deps, c[1..]))
  }

  ghost predicate WalkFromTo(raw: seq<Id>, deps: map<Id, seq<Id>>, c: seq<Id>, x: Id, y: Id) {
    Walk(raw, deps, c) && c[0] == x && c[|c| - 1] == y
  }

  ghost predicate OnCycle(raw: seq<Id>, deps: map<Id, seq<Id>>, x: Id) {
    exists c :: |c| > 1 && WalkFromTo(raw, deps, c, x, x)
  }

  /** On a cycle, or depending on a resource that is. */
  ghost predicate Tangled(raw: seq<Id>, deps: map<Id, seq<Id>>, x: Id) {
    exists c, y :: WalkFromTo(raw, deps, c, x, y) && OnCycle(raw, deps, y)
  }

  ghost predicate Acyclic(raw: seq<Id>, deps: map<Id, seq<Id>>) {
    forall x :: x in raw ==> !OnCycle(raw, deps, x)
  }

  /** Everything the resource depends on is among `placed`. */
  ghost predicate ReadyAfter(raw: seq<Id>, deps: map<Id, seq<Id>>, placed: seq<Id>, x: Id) {
    x in raw && x !in placed && forall d :: Needs(raw, deps, x, d) ==> d in placed
  }

  /** Each resource once, after everything it depends on. */
  ghost predicate Topological(raw: seq<Id>, deps: map<Id, seq<Id>>, ids: seq<Id>) {
    && Distinct(ids)
    && (forall x :: x in ids <==> x in raw)
    && (forall i :: 0 <= i < |ids| ==> ReadyAfter(raw, deps, ids[..i], ids[i]))
  }

  ghost function Pos(raw: seq<Id>, x: Id): nat
    requires x in raw
    ensures Pos(raw, x) < |raw| && raw[Pos(raw, x)] == x
  {
    var i :| 0 <= i < |raw| && raw[i] == x;
    i
  }

  ghost predicate LexAtMost(raw: seq<Id>, a: seq<Id>, b: seq<Id>) {
    a == b ||
    exists i :: 0 <= i < |a| && i < |b| && a[..i] == b[..i] && a[i] in raw && b[i] in raw && Pos(raw, a[i]) < Pos(raw, b[i])
  }

  /** The topological order that comes first when orders are compared by template position. */
  ghost predicate LeastTopological(raw: seq<Id>, deps: map<Id, seq<Id>>, ids: seq<Id>) {
    Topological(raw, deps, ids) && forall q :: Topological(raw, deps, q) ==> LexAtMost(raw, ids, q)
  }

  // ---------------------------------------------------------------- why greedy is right

  /** Each resource was, when placed, the first of the template that was ready. */
  ghost predicate Greedy(raw: seq<Id>, deps: map<Id, seq<Id>>, ids: seq<Id>) {
    forall i :: 0 <= i < |ids| ==>
      && ReadyAfter(raw, deps, ids[..i], ids[i])
      && forall y :: ReadyAfter(raw, deps, ids[..i], y) ==> Pos(raw, ids[i]) <= Pos(raw, y)
  }

  lemma {:induction false} FirstDifference(a: seq<Id>, b: seq<Id>, n: nat) returns (i: nat)
    requires n <= |a| && n <= |b| && a[..n] == b[..n]
    ensures i <= |a| && i <= |b| && a[..i] == b[..i]
    ensures i == |a| || i == |b| || a[i] != b[i]
    decreases |a| - n
  {
    if n == |a| || n == |b| || a[n] != b[n] {
      i := n;
    } else {
      assert a[..n + 1] == a[..n] + [a[n]] && b[..n + 1] == b[..n] + [b[n]];
      i := FirstDifference(a, b, n + 1);
    }
  }

  lemma {:induction false} DistinctSize(ids: seq<Id>)
    requires Distinct(ids)
    ensures |set x | x in ids| == |ids|
    decreases |ids|
  {
    if ids != [] {
      DistinctSize(ids[1..]);
      assert (set x | x in ids) == {ids[0]} + (set x | x in ids[1..]);
    }
  }

  lemma SamePrefix(a: seq<Id>, b: seq<Id>)
    requires Distinct(a) && Distinct(b) && |a| <= |b| && a == b[..|a|]
    requires forall x :: x in b <==> x in a
    ensures a == b
  {
    DistinctSize(a);
    DistinctSize(b);
    assert (set x | x in a) == (set x | x in b);
    assert b[..|b|] == b;
  }

  lemma GreedyIsLeast(raw: seq<Id>, deps: map<Id, seq<Id>>, ids: seq<Id>)
    requires Topological(raw, deps, ids) && Greedy(raw, deps, ids)
    ensures LeastTopological(raw, deps, ids)
  {
    forall q | Topological(raw, deps, q)
      ensures LexAtMost(raw, ids, q)
    {
      var i := FirstDifference(ids, q, 0);
      if i == |ids| {
        SamePrefix(ids, q);
      } else if i == |q| {
        SamePrefix(q, ids);
      } else {
        assert ReadyAfter(raw, deps, q[..i], q[i]);
        assert ids[i] in raw && q[i] in raw;
        assert Pos(raw, ids[i]) < Pos(raw, q[i]);
      }
    }
  }

  /** The order is a function of the dependency relation alone: listing a dependency twice,
      in another place, or next to names that are not resources changes nothing. */
  lemma LeastUnique(raw: seq<Id>, deps: map<Id, seq<Id>>, deps': map<Id, seq<Id>>, a: seq<Id>, b: seq<Id>)
    requires forall x, d :: Needs(raw, deps, x, d) <==> Needs(raw, deps', x, d)
    requires LeastTopological(raw, deps, a) && LeastTopological(raw, deps', b)
    ensures a == b
  {
    SameTopological(raw, deps, deps', b);
    SameTopological(raw, deps, deps', a);
    assert LexAtMost(raw, a, b) && LexAtMost(raw, b, a);
    LexAntisymmetric(raw, a, b);
  }

  lemma LexAntisymmetric(raw: seq<Id>, a: seq<Id>, b: seq<Id>)
    requires LexAtMost(raw, a, b) && LexAtMost(raw, b, a)
    ensures a == b
  {
    if a != b {
      var i :| 0 <= i < |a| && i < |b| && a[..i] == b[..i] && a[i] in raw && b[i] in raw && Pos(raw, a[i]) < Pos(raw, b[i]);
      var j :| 0 <= j < |b| && j < |a| && b[..j] == a[..j] && b[j] in raw && a[j] in raw && Pos(raw, b[j]) < Pos(raw, a[j]);
      SameBelow(a, b, i);
      SameBelow(a, b, j);
    }
  }

  lemma SameBelow(a: seq<Id>, b: seq<Id>, n: nat)
    requires n <= |a| && n <= |b| && a[..n] == b[..n]
    ensures forall k :: 0 <= k < n ==> a[k] == b[k]
  {
    forall k | 0 <= k < n
      ensures a[k] == b[k]
    {
      assert a[..n][k] == b[..n][k];
    }
  }

  lemma SameTopological(raw: seq<Id>, deps: map<Id, seq<Id>>, deps': map<Id, seq<Id>>, q: seq<Id>)
    requires forall x, d :: Needs(raw, deps, x, d) <==> Needs(raw, deps', x, d)
    ensures Topological(raw, deps, q) <==> Topological(raw, deps', q)
  {
    forall i | 0 <= i < |q|
      ensures ReadyAfter(raw, deps, q[..i], q[i]) <==> ReadyAfter(raw, deps', q[..i], q[i])
    {
    }
  }

  // ---------------------------------------------------------------- why what is left is tangled

  /** Each placed resource was ready when it was placed. */
  ghost predicate Placed(raw: seq<Id>, deps: map<Id, seq<Id>>, out: seq<Id>) {
    Distinct(out) && forall i :: 0 <= i < |out| ==> ReadyAfter(raw, deps, out[..i], out[i])
  }

  /** Walking from a placed resource only reaches resources placed earlier. */
  lemma {:induction false} WalkDescends(raw: seq<Id>, deps: map<Id, seq<Id>>, out: seq<Id>, c: seq<Id>, i: nat) returns (j: nat)
    requires Placed(raw, deps, out) && Walk(raw, deps, c) && i < |out| && out[i] == c[0]
    ensures j <= i && out[j] == c[|c| - 1]
    ensures |c| > 1 ==> j < i
    decreases |c|
  {
    if |c| == 1 {
      j := i;
    } else {
      assert ReadyAfter(raw, deps, out[..i], out[i]) && c[1] in out[..i];
      var k :| 0 <= k < i && out[k] == c[1];
      j := WalkDescends(raw, deps, out, c[1..], k);
    }
  }

  lemma PlacedNotTangled(raw: seq<Id>, deps: map<Id, seq<Id>>, out: seq<Id>, x: Id)
    requires Placed(raw, deps, out) && x in out
    ensures !Tangled(raw, deps, x)
  {
    if c, y :| WalkFromTo(raw, deps, c, x, y) && OnCycle(raw, deps, y) {
      var i :| 0 <= i < |out| && out[i] == x;
      var j := WalkDescends(raw, deps, out, c, i);
      var loop :| |loop| > 1 && WalkFromTo(raw, deps, loop, y, y);
      var k := WalkDescends(raw, deps, out, loop, j);
    }
  }

  /** The resource depends on another one that is left over. */
  ghost predicate Held(raw: seq<Id>, deps: map<Id, seq<Id>>, out: seq<Id>, x: Id) {
    exists d :: d !in out && Needs(raw, deps, x, d)
  }

  ghost predicate Blocked(raw: seq<Id>, deps: map<Id, seq<Id>>, out: seq<Id>) {
    forall x {:trigger Held(raw, deps, out, x)} :: x in raw && x !in out ==> Held(raw, deps, out, x)
  }

  lemma {:induction false} LongWalk(raw: seq<Id>, deps: map<Id, seq<Id>>, out: seq<Id>, x: Id, n: nat) returns (c: seq<Id>)
    requires Blocked(raw, deps, out) && x in raw && x !in out
    ensures |c| == n + 1 && Walk(raw, deps, c) && c[0] == x
    ensures forall i :: 0 <= i < |c| ==> c[i] in raw
    decreases n
  {
    if n == 0 {
      c := [x];
    } else {
      assert Held(raw, deps, out, x);
      var d :| d !in out && Needs(raw, deps, x, d);
      var rest := LongWalk(raw, deps, out, d, n - 1);
      c := [x] + rest;
      assert c[1..] == rest;
    }
  }

  lemma {:induction false} Pigeonhole(c: seq<Id>, s: set<Id>) returns (i: nat, j: nat)
    requires |c| > |s| && forall k :: 0 <= k < |c| ==> c[k] in s
    ensures i < j < |c| && c[i] == c[j]
    decreases |c|
  {
    if k :| 0 < k < |c| && c[k] == c[0] {
      i, j := 0, k;
    } else {
      i, j := Pigeonhole(c[1..], s - {c[0]});
      i, j := i + 1, j + 1;
    }
  }

  lemma {:induction false} WalkSuffix(raw: seq<Id>, deps: map<Id, seq<Id>>, c: seq<Id>, i: nat)
    requires Walk(raw, deps, c) && i < |c|
    ensures Walk(raw, deps, c[i..])
    decreases |c|
  {
    if i == 0 {
      assert c[0..] == c;
    } else {
      WalkSuffix(raw, deps, c[1..], i - 1);
      assert c[1..][i - 1..] == c[i..];
    }
  }

  lemma {:induction false} WalkPrefix(raw: seq<Id>, deps: map<Id, seq<Id>>, c: seq<Id>, j: nat)
    requires Walk(raw, deps, c) && 0 < j <= |c|
    ensures Walk(raw, deps, c[..j])
    decreases |c|
  {
    if j > 1 {
      WalkPrefix(raw, deps, c[1..], j - 1);
      assert c[..j][1..] == c[1..][..j - 1];
    }
  }

  lemma {:induction false} SetSize(raw: seq<Id>)
    ensures |set x | x in raw| <= |raw|
    decreases |raw|
  {
    if raw != [] {
      SetSize(raw[1..]);
      assert (set x | x in raw) == {raw[0]} + (set x | x in raw[1..]);
    }
  }

  lemma LeftOverIsTangled(raw: seq<Id>, deps: map<Id, seq<Id>>, out: seq<Id>, x: Id)
    requires Blocked(raw, deps, out) && x in raw && x !in out
    ensures Tangled(raw, deps, x)
  {
    hide Needs, Walk, Blocked, Held;
    var c := LongWalk(raw, deps, out, x, |raw|);
    SetSize(raw);
    var i, j := Pigeonhole(c, set y | y in raw);
    WalkPrefix(raw, deps, c, i + 1);
    WalkSuffix(raw, deps, c, i);
    WalkPrefix(raw, deps, c[i..], j + 1 - i);
    assert WalkFromTo(raw, deps, c[i..][..j + 1 - i], c[i], c[i]);
    assert WalkFromTo(raw, deps, c[..i + 1], x, c[i]);
  }

  // ---------------------------------------------------------------- the algorithm

  ghost predicate Positions(raw: seq<Id>, pos: map<Id, nat>) {
    && (forall x :: x in raw <==> x in pos)
    && (forall x :: x in pos ==> pos[x] < |raw| && raw[pos[x]] == x)
  }

  ghost predicate SortedByPos(ids: seq<Id>, pos: map<Id, nat>) {
    && (forall i :: 0 <= i < |ids| ==> ids[i] in pos)
    && (forall i, j :: 0 <= i < j < |ids| ==> pos[ids[i]] < pos[ids[j]])
  }

  /** The ids stand in the order they have in the template. */
  ghost predicate InTemplateOrder(raw: seq<Id>, ids: seq<Id>) {
    forall i, j :: 0 <= i < j < |ids| ==> Earlier(raw, ids[i], ids[j])
  }

  ghost predicate Earlier(raw: seq<Id>, x: Id, y: Id) {
    exists a, b :: 0 <= a < b < |raw| && raw[a] == x && raw[b] == y
  }

  /** What a resource lists as a dependency, itself and ids that are no resource apart, stands before it. */
  ghost predicate DependenciesFirst(raw: seq<Id>, deps: map<Id, seq<Id>>, ids: seq<Id>) {
    forall x, d :: x in raw && x in deps && d in deps[x] && d in raw && d != x ==> Earlier(ids, d, x)
  }

  lemma TopologicalFirst(raw: seq<Id>, deps: map<Id, seq<Id>>, ids: seq<Id>)
    requires Distinct(raw)
    ensures LeastTopological(raw, deps, ids) ==> DependenciesFirst(raw, deps, ids)
  {
    if LeastTopological(raw, deps, ids) {
      forall x, d | x in raw && x in deps && d in deps[x] && d in raw && d != x ensures Earlier(ids, d, x) {
        var b :| 0 <= b < |ids| && ids[b] == x;
        assert ReadyAfter(raw, deps, ids[..b], x) && Needs(raw, deps, x, d);
        var a :| 0 <= a < b && ids[..b][a] == d;
      }
    }
  }

  lemma SortedIsInOrder(raw: seq<Id>, pos: map<Id, nat>, ids: seq<Id>)
    requires Positions(raw, pos) && SortedByPos(ids, pos)
    ensures InTemplateOrder(raw, ids)
  {
    forall i, j | 0 <= i < j < |ids| ensures Earlier(raw, ids[i], ids[j]) {
      assert raw[pos[ids[i]]] == ids[i] && raw[pos[ids[j]]] == ids[j];
    }
  }

  lemma InsertedAt(ready: seq<Id>, lo: nat, id: Id, pos: map<Id, nat>)
    requires SortedByPos(ready, pos) && id in pos && lo <= |ready|
    requires forall k :: 0 <= k < lo ==> pos[ready[k]] < pos[id]
    requires forall k :: lo <= k < |ready| ==> pos[ready[k]] > pos[id]
    ensures SortedByPos(ready[..lo] + [id] + ready[lo..], pos)
    ensures forall x :: x in ready[..lo] + [id] + ready[lo..] <==> x in ready || x == id
  {
    var r := ready[..lo] + [id] + ready[lo..];
    assert forall k :: 0 <= k < |r| ==> r[k] == if k < lo then ready[k] else if k == lo then id else ready[k - 1];
    forall x
      ensures x in r <==> x in ready || x == id
    {
      assert ready == ready[..lo] + ready[lo..];
    }
  }

  /** sort.Search for the first entry positioned after `id`, then a shift to make room. */
  method InsertByPos(ready: seq<Id>, id: Id, pos: map<Id, nat>) returns (r: seq<Id>)
    requires SortedByPos(ready, pos) && id in pos
    requires forall x :: x in ready ==> pos[x] != pos[id]
    ensures SortedByPos(r, pos)
    ensures forall x :: x in r <==> x in ready || x == id
  {
    var lo, hi := 0, |ready|;
    while lo < hi
      invariant 0 <= lo <= hi <= |ready|
      invariant forall k :: 0 <= k < lo ==> pos[ready[k]] < pos[id]
      invariant forall k :: hi <= k < |ready| ==> pos[ready[k]] > pos[id]
    {
      var mid := (lo + hi) / 2;
      assert ready[mid] in ready;
      if pos[ready[mid]] > pos[id] {
        hi := mid;
      } else {
        lo := mid + 1;
      }
    }
    InsertedAt(ready, lo, id, pos);
    r := ready[..lo] + [id] + ready[lo..];
  }

  method SortByPos(ids: seq<Id>, pos: map<Id, nat>) returns (r: seq<Id>)
    requires Distinct(ids) && forall x :: x in ids ==> x in pos
    requires forall x, y :: x in pos && y in pos && pos[x] == pos[y] ==> x == y
    ensures SortedByPos(r, pos)
    ensures forall x :: x in r <==> x in ids
  {
    r := [];
    for n := 0 to |ids|
      invariant SortedByPos(r, pos)
      invariant forall x :: x in r <==> x in ids[..n]
    {
      r := InsertByPos(r, ids[n], pos);
      assert ids[..n + 1] == ids[..n] + [ids[n]];
    }
    assert ids[..|ids|] == ids;
  }

  /** Dependencies of `x` still to be placed. */
  ghost function Open(raw: seq<Id>, deps: map<Id, seq<Id>>, out: seq<Id>, x: Id): set<Id> {
    set d | d in raw && Needs(raw, deps, x, d) && d !in out
  }

  ghost predicate Dependents(raw: seq<Id>, deps: map<Id, seq<Id>>, m: map<Id, seq<Id>>) {
    forall x :: x in raw ==> x in m && Distinct(m[x]) && forall y :: y in m[x] <==> Needs(raw, deps, y, x)
  }

  /** In-degrees and dependents as they stand when the resources of `done` are counted. */
  ghost predicate Counted(raw: seq<Id>, deps: map<Id, seq<Id>>, done: set<Id>, indeg: map<Id, nat>, dependents: map<Id, seq<Id>>) {
    && indeg.Keys == dependents.Keys
    && (forall x :: x in indeg <==> x in raw)
    && (forall x :: x in raw ==> indeg[x] == if x in done then |Open(raw, deps, [], x)| else 0)
    && (forall x :: x in raw ==> Distinct(dependents[x]))
    && (forall x, y :: x in raw ==> (y in dependents[x] <==> y in done && Needs(raw, deps, y, x)))
  }

  /** `id` appended for each of its dependencies. */
  ghost function Appended(dependents: map<Id, seq<Id>>, needed: set<Id>, id: Id): map<Id, seq<Id>> {
    map x | x in dependents :: if x in needed then dependents[x] + [id] else dependents[x]
  }

  lemma CountedNext(raw: seq<Id>, deps: map<Id, seq<Id>>, done: set<Id>, id: Id, indeg: map<Id, nat>, dependents: map<Id, seq<Id>>)
    requires Counted(raw, deps, done, indeg, dependents) && id in raw && id !in done
    ensures Counted(raw, deps, done + {id}, indeg[id := |Open(raw, deps, [], id)|], Appended(dependents, Open(raw, deps, [], id), id))
  {
    hide Open, Needs, Appended, Distinct;
    var needed := Open(raw, deps, [], id);
    AppendedFacts(dependents, needed, id);
    OpenAtStart(raw, deps, id);
    var dependents' := Appended(dependents, needed, id);
    forall x | x in raw
      ensures Distinct(dependents'[x])
    {
      AppendedDistinct(dependents, needed, id, x);
    }
    forall x, y | x in raw
      ensures y in dependents'[x] <==> y in done + {id} && Needs(raw, deps, y, x)
    {
      AppendedMember(dependents, needed, id, x, y);
    }
  }

  lemma AppendedFacts(dependents: map<Id, seq<Id>>, needed: set<Id>, id: Id)
    ensures Appended(dependents, needed, id).Keys == dependents.Keys
  {}

  lemma AppendedDistinct(dependents: map<Id, seq<Id>>, needed: set<Id>, id: Id, x: Id)
    requires x in dependents && Distinct(dependents[x]) && id !in dependents[x]
    ensures Distinct(Appended(dependents, needed, id)[x])
  {}

  lemma AppendedMember(dependents: map<Id, seq<Id>>, needed: set<Id>, id: Id, x: Id, y: Id)
    requires x in dependents
    ensures y in Appended(dependents, needed, id)[x] <==> y in dependents[x] || (y == id && x in needed)
  {}

  lemma OpenAtStart(raw: seq<Id>, deps: map<Id, seq<Id>>, id: Id)
    ensures forall x :: x in Open(raw, deps, [], id) <==> Needs(raw, deps, id, x)
  {
  }

  /** The unique edges: in-degrees and, for each resource, who depends on it. */
  method CountEdges(raw: seq<Id>, deps: map<Id, seq<Id>>) returns (indeg: map<Id, nat>, dependents: map<Id, seq<Id>>)
    requires Distinct(raw)
    ensures forall x :: x in raw ==> x in indeg && indeg[x] == |Open(raw, deps, [], x)|
    ensures Dependents(raw, deps, dependents)
  {
    hide Open, Needs, Counted, Appended;
    indeg := map x | x in raw :: 0;
    dependents := map x | x in raw :: [];
    ghost var done: set<Id> := {};
    CountedStart(raw, deps, indeg, dependents);
    for n := 0 to |raw|
      invariant Counted(raw, deps, done, indeg, dependents)
      invariant forall k :: 0 <= k < |raw| ==> (raw[k] in done <==> k < n)
    {
      var id := raw[n];
      CountedNext(raw, deps, done, id, indeg, dependents);
      CountedKeys(raw, deps, done, indeg, dependents);
      indeg, dependents := CountEdgesOf(raw, deps, id, indeg, dependents);
      done := done + {id};
    }
    CountedAll(raw, deps, done, indeg, dependents);
  }

  lemma CountedStart(raw: seq<Id>, deps: map<Id, seq<Id>>, indeg: map<Id, nat>, dependents: map<Id, seq<Id>>)
    requires indeg == map x | x in raw :: 0
    requires dependents == map x | x in raw :: []
    ensures Counted(raw, deps, {}, indeg, dependents)
  {
    assert indeg.Keys == dependents.Keys;
  }

  lemma CountedKeys(raw: seq<Id>, deps: map<Id, seq<Id>>, done: set<Id>, indeg: map<Id, nat>, dependents: map<Id, seq<Id>>)
    requires Counted(raw, deps, done, indeg, dependents)
    ensures indeg.Keys == dependents.Keys && forall x :: x in indeg <==> x in raw
    ensures forall x :: x in raw && x !in done ==> indeg[x] == 0
  {
  }

  lemma CountedAll(raw: seq<Id>, deps: map<Id, seq<Id>>, done: set<Id>, indeg: map<Id, nat>, dependents: map<Id, seq<Id>>)
    requires Counted(raw, deps, done, indeg, dependents) && forall k :: 0 <= k < |raw| ==> raw[k] in done
    ensures forall x :: x in raw ==> x in indeg && indeg[x] == |Open(raw, deps, [], x)|
    ensures Dependents(raw, deps, dependents)
  {
    hide Open;
  }

  method CountEdgesOf(raw: seq<Id>, deps: map<Id, seq<Id>>, id: Id, indeg0: map<Id, nat>, dependents0: map<Id, seq<Id>>)
    returns (indeg: map<Id, nat>, dependents: map<Id, seq<Id>>)
    requires id in raw && indeg0.Keys == dependents0.Keys && forall x :: x in indeg0 <==> x in raw
    requires indeg0[id] == 0
    ensures indeg == indeg0[id := |Open(raw, deps, [], id)|]
    ensures dependents == Appended(dependents0, Open(raw, deps, [], id), id)
  {
    hide Needs, Open, Appended;
    var listed := if id in deps then deps[id] else [];
    NeedsListed(raw, deps, id, listed);
    AppendedNone(dependents0, id);
    indeg, dependents := indeg0, dependents0;
    var seen := {};
    for n := 0 to |listed|
      invariant forall d :: d in seen ==> Needs(raw, deps, id, d)
      invariant forall k :: 0 <= k < n && Needs(raw, deps, id, listed[k]) ==> listed[k] in seen
      invariant indeg == indeg0[id := |seen|]
      invariant dependents.Keys == dependents0.Keys
      invariant dependents == Appended(dependents0, seen, id)
    {
      var dep := listed[n];
      if dep != id && dep !in seen && dep in indeg {
        AppendedOne(dependents0, seen, dep, id);
        seen := seen + {dep};
        dependents := dependents[dep := dependents[dep] + [id]];
        indeg := indeg[id := indeg[id] + 1];
      }
    }
    AllSeen(raw, deps, id, listed, seen);
  }

  lemma AppendedNone(dependents: map<Id, seq<Id>>, id: Id)
    ensures Appended(dependents, {}, id) == dependents
  {
  }

  lemma AppendedOne(dependents: map<Id, seq<Id>>, needed: set<Id>, d: Id, id: Id)
    requires d in dependents && d !in needed
    ensures Appended(dependents, needed, id).Keys == dependents.Keys
    ensures Appended(dependents, needed, id)[d := Appended(dependents, needed, id)[d] + [id]] ==
            Appended(dependents, needed + {d}, id)
  {
  }

  lemma NeedsResources(raw: seq<Id>, deps: map<Id, seq<Id>>)
    ensures forall x, d :: Needs(raw, deps, x, d) ==> x in raw && d in raw
  {
  }

  lemma NeedsListed(raw: seq<Id>, deps: map<Id, seq<Id>>, id: Id, listed: seq<Id>)
    requires id in raw && listed == if id in deps then deps[id] else []
    ensures forall k :: 0 <= k < |listed| ==> (Needs(raw, deps, id, listed[k]) <==> listed[k] != id && listed[k] in raw)
  {
  }

  lemma AllSeen(raw: seq<Id>, deps: map<Id, seq<Id>>, id: Id, listed: seq<Id>, seen: set<Id>)
    requires id in raw && listed == if id in deps then deps[id] else []
    requires forall d :: d in seen ==> Needs(raw, deps, id, d)
    requires forall k :: 0 <= k < |listed| && Needs(raw, deps, id, listed[k]) ==> listed[k] in seen
    ensures seen == Open(raw, deps, [], id)
  {
  }

  /** What the main loop keeps: the in-degree of a resource counts its unplaced dependencies,
      and the ready list holds, by position, exactly the unplaced resources with none. */
  ghost predicate LoopInv(raw: seq<Id>, deps: map<Id, seq<Id>>, pos: map<Id, nat>, out: seq<Id>, ready: seq<Id>, indeg: map<Id, nat>) {
    && Placed(raw, deps, out) && Greedy(raw, deps, out)
    && (forall x :: x in out ==> x in raw)
    && (forall x :: x in raw ==> x in indeg && indeg[x] == |Open(raw, deps, out, x)|)
    && SortedByPos(ready, pos)
    && (forall x :: x in ready <==> x in raw && x !in out && indeg[x] == 0)
  }

  lemma OpenEmpty(raw: seq<Id>, deps: map<Id, seq<Id>>, out: seq<Id>, x: Id)
    requires x in raw && x !in out
    ensures |Open(raw, deps, out, x)| == 0 <==> ReadyAfter(raw, deps, out, x)
  {
    if Open(raw, deps, out, x) == {} {
      forall d | Needs(raw, deps, x, d)
        ensures d in out
      {
        assert d !in Open(raw, deps, out, x);
      }
    } else {
      var d :| d in Open(raw, deps, out, x);
    }
  }

  /** Placing the head of the ready list keeps the order placed and greedy. */
  lemma PlaceHead(raw: seq<Id>, deps: map<Id, seq<Id>>, pos: map<Id, nat>, out: seq<Id>, ready: seq<Id>, indeg: map<Id, nat>)
    requires Distinct(raw) && Positions(raw, pos) && LoopInv(raw, deps, pos, out, ready, indeg) && ready != []
    ensures Placed(raw, deps, out + [ready[0]]) && Greedy(raw, deps, out + [ready[0]])
  {
    var id, out' := ready[0], out + [ready[0]];
    OpenEmpty(raw, deps, out, id);
    forall i | 0 <= i < |out'|
      ensures ReadyAfter(raw, deps, out'[..i], out'[i])
      ensures forall y :: ReadyAfter(raw, deps, out'[..i], y) ==> Pos(raw, out'[i]) <= Pos(raw, y)
    {
      if i < |out| {
        assert out'[..i] == out[..i] && out'[i] == out[i];
      } else {
        assert out'[..i] == out;
        forall y | ReadyAfter(raw, deps, out, y)
          ensures Pos(raw, id) <= Pos(raw, y)
        {
          OpenEmpty(raw, deps, out, y);
          var k :| 0 <= k < |ready| && ready[k] == y;
          assert Pos(raw, id) == pos[id] && Pos(raw, y) == pos[y];
        }
      }
    }
  }

  lemma OpenAfter(raw: seq<Id>, deps: map<Id, seq<Id>>, out: seq<Id>, id: Id, x: Id)
    requires id in raw && id !in out && x in raw
    ensures Open(raw, deps, out + [id], x) == Open(raw, deps, out, x) - {id}
    ensures id in Open(raw, deps, out, x) <==> Needs(raw, deps, x, id)
  {
  }

  /** One resource is placed: its dependents' in-degrees drop, and those that reach zero
      join the ready list at their position. */
  method Release(raw: seq<Id>, deps: map<Id, seq<Id>>, pos: map<Id, nat>, ghost out: seq<Id>, id: Id, next: seq<Id>, ready0: seq<Id>, indeg0: map<Id, nat>)
    returns (ready: seq<Id>, indeg: map<Id, nat>)
    requires Positions(raw, pos) && id in raw && id !in out
    requires Distinct(next) && forall y :: y in next <==> Needs(raw, deps, y, id)
    requires forall x :: x in raw ==> x in indeg0 && indeg0[x] == |Open(raw, deps, out, x)|
    requires SortedByPos(ready0, pos)
    requires forall x :: x in ready0 <==> x in raw && x !in out + [id] && indeg0[x] == 0
    requires forall x :: x in out + [id] ==> Open(raw, deps, out, x) == {}
    ensures forall x :: x in raw ==> x in indeg && indeg[x] == |Open(raw, deps, out + [id], x)|
    ensures SortedByPos(ready, pos)
    ensures forall x :: x in ready <==> x in raw && x !in out + [id] && indeg[x] == 0
  {
    ready, indeg := ready0, indeg0;
    for n := 0 to |next|
      invariant forall x :: x in raw ==> x in indeg && indeg[x] + (if x in next[..n] then 1 else 0) == indeg0[x]
      invariant SortedByPos(ready, pos)
      invariant forall x :: x in ready <==> x in raw && x !in out + [id] && indeg[x] == 0
    {
      var d := next[n];
      assert d in next && d !in next[..n];
      OpenAfter(raw, deps, out, id, d);
      assert next[..n + 1] == next[..n] + [d];
      indeg := indeg[d := indeg[d] - 1];
      if indeg[d] == 0 {
        ready := InsertByPos(ready, d, pos);
      }
    }
    assert next[..|next|] == next;
    forall x | x in raw
      ensures indeg[x] == |Open(raw, deps, out + [id], x)|
    {
      OpenAfter(raw, deps, out, id, x);
    }
  }

  /** Distinct resources of the template: never more than it has, and all of it if as many. */
  lemma Fits(raw: seq<Id>, out: seq<Id>)
    requires Distinct(raw) && Distinct(out) && forall x :: x in out ==> x in raw
    ensures |out| <= |raw|
    ensures |out| == |raw| <==> forall x :: x in raw ==> x in out
  {
    DistinctSize(raw);
    DistinctSize(out);
    var r, o := set x | x in raw, set x | x in out;
    assert r == o + (r - o);
    if forall x :: x in raw ==> x in out {
      assert r == o;
    }
    if |out| == |raw| {
      assert r - o == {};
      forall x | x in raw
        ensures x in out
      {
        assert x in r && x !in r - o;
      }
    }
  }

  method BuildPos(raw: seq<Id>) returns (pos: map<Id, nat>)
    requires Distinct(raw)
    ensures Positions(raw, pos)
  {
    pos := map[];
    for n := 0 to |raw|
      invariant forall x :: x in pos <==> x in raw[..n]
      invariant forall x :: x in pos ==> pos[x] < n && raw[pos[x]] == x
    {
      assert raw[..n + 1] == raw[..n] + [raw[n]];
      pos := pos[raw[n] := n];
    }
    assert raw[..|raw|] == raw;
  }

  /** The resources with no unplaced dependency (`zero`), or those with some. */
  method Select(raw: seq<Id>, indeg: map<Id, nat>, zero: bool) returns (r: seq<Id>)
    requires Distinct(raw) && forall x :: x in raw ==> x in indeg
    ensures Distinct(r) && forall x :: x in r <==> x in raw && (indeg[x] == 0) == zero
  {
    r := [];
    for n := 0 to |raw|
      invariant Distinct(r) && forall x :: x in r <==> x in raw[..n] && (indeg[x] == 0) == zero
    {
      assert raw[..n + 1] == raw[..n] + [raw[n]];
      assert raw[n] in raw && raw[n] !in raw[..n];
      if (indeg[raw[n]] == 0) == zero {
        r := r + [raw[n]];
      }
    }
    assert raw[..|raw|] == raw;
  }

  lemma PlacedOpen(raw: seq<Id>, deps: map<Id, seq<Id>>, out: seq<Id>, x: Id)
    requires Placed(raw, deps, out) && x in out
    ensures Open(raw, deps, out, x) == {}
  {
    var i :| 0 <= i < |out| && out[i] == x;
    assert ReadyAfter(raw, deps, out[..i], out[i]);
  }

  lemma {:induction false} WalkInRaw(raw: seq<Id>, deps: map<Id, seq<Id>>, c: seq<Id>)
    requires Walk(raw, deps, c)
    ensures c[|c| - 1] in raw
    decreases |c|
  {
    if |c| > 1 {
      WalkInRaw(raw, deps, c[1..]);
    }
  }

  lemma LeftOverIffTangled(raw: seq<Id>, deps: map<Id, seq<Id>>, pos: map<Id, nat>, out: seq<Id>, indeg: map<Id, nat>)
    requires LoopInv(raw, deps, pos, out, [], indeg)
    ensures forall x :: x in raw ==> (x !in out <==> Tangled(raw, deps, x))
  {
    hide Tangled, Greedy;
    forall x | x in raw && x !in out
      ensures Held(raw, deps, out, x)
    {
      assert indeg[x] != 0;
      var d :| d in Open(raw, deps, out, x);
    }
    forall x | x in raw
      ensures x !in out <==> Tangled(raw, deps, x)
    {
      if x in out {
        PlacedNotTangled(raw, deps, out, x);
      } else {
        LeftOverIsTangled(raw, deps, out, x);
      }
    }
  }

  /** When nothing is ready, what is left is what is tangled; if nothing is left the order is
      the least one. */
  lemma Verdict(raw: seq<Id>, deps: map<Id, seq<Id>>, pos: map<Id, nat>, out: seq<Id>, indeg: map<Id, nat>)
    requires Distinct(raw) && Positions(raw, pos) && LoopInv(raw, deps, pos, out, [], indeg)
    ensures forall x :: x in raw && x !in out <==> x in raw && Tangled(raw, deps, x)
    ensures |out| == |raw| <==> Acyclic(raw, deps)
    ensures |out| == |raw| ==> LeastTopological(raw, deps, out)
  {
    LeftOverIffTangled(raw, deps, pos, out, indeg);
    Fits(raw, out);
    TangledIffCycle(raw, deps);
    if |out| == |raw| {
      GreedyIsLeast(raw, deps, out);
    }
  }

  lemma TangledIffCycle(raw: seq<Id>, deps: map<Id, seq<Id>>)
    ensures Acyclic(raw, deps) <==> forall x :: x in raw ==> !Tangled(raw, deps, x)
  {
    if !Acyclic(raw, deps) {
      var x :| x in raw && OnCycle(raw, deps, x);
      assert WalkFromTo(raw, deps, [x], x, x);
      assert Tangled(raw, deps, x);
    }
    forall x | x in raw && Tangled(raw, deps, x)
      ensures !Acyclic(raw, deps)
    {
      var c, y :| WalkFromTo(raw, deps, c, x, y) && OnCycle(raw, deps, y);
      WalkInRaw(raw, deps, c);
    }
  }

  /** One round of the main loop. */
  method PlaceNext(raw: seq<Id>, deps: map<Id, seq<Id>>, pos: map<Id, nat>, ghost out: seq<Id>, ready0: seq<Id>, indeg0: map<Id, nat>, dependents: seq<Id>)
    returns (ready: seq<Id>, indeg: map<Id, nat>)
    requires Distinct(raw) && Positions(raw, pos) && LoopInv(raw, deps, pos, out, ready0, indeg0) && ready0 != []
    requires Distinct(dependents) && forall y :: y in dependents <==> Needs(raw, deps, y, ready0[0])
    ensures LoopInv(raw, deps, pos, out + [ready0[0]], ready, indeg)
    ensures |out + [ready0[0]]| <= |raw|
  {
    hide LoopInv, Needs, Open, Greedy, Placed, Distinct, SortedByPos;
    var id := ready0[0];
    PlaceHead(raw, deps, pos, out, ready0, indeg0);
    NothingOpen(raw, deps, pos, out, ready0, indeg0);
    NeedsResources(raw, deps);
    var next := SortByPos(dependents, pos);
    HeadTaken(raw, deps, pos, out, ready0, indeg0);
    ready, indeg := Release(raw, deps, pos, out, id, next, ready0[1..], indeg0);
    LoopInvNext(raw, deps, pos, out + [id], ready, indeg);
    PlacedDistinct(raw, deps, out + [id]);
    Fits(raw, out + [id]);
  }

  /** What is left when the head of the ready list is taken. */
  lemma HeadTaken(raw: seq<Id>, deps: map<Id, seq<Id>>, pos: map<Id, nat>, out: seq<Id>, ready: seq<Id>, indeg: map<Id, nat>)
    requires LoopInv(raw, deps, pos, out, ready, indeg) && ready != []
    ensures ready[0] in raw && ready[0] !in out && forall x :: x in out + [ready[0]] ==> x in raw
    ensures forall x :: x in raw ==> x in indeg && indeg[x] == |Open(raw, deps, out, x)|
    ensures SortedByPos(ready[1..], pos)
    ensures forall x :: x in ready[1..] <==> x in raw && x !in out + [ready[0]] && indeg[x] == 0
  {
    hide Needs, Open, Greedy, Placed;
    assert ready[0] in ready;
    TailMembers(ready, pos);
  }

  lemma LoopInvNext(raw: seq<Id>, deps: map<Id, seq<Id>>, pos: map<Id, nat>, out: seq<Id>, ready: seq<Id>, indeg: map<Id, nat>)
    requires Placed(raw, deps, out) && Greedy(raw, deps, out) && SortedByPos(ready, pos)
    requires forall x :: x in out ==> x in raw
    requires forall x :: x in raw ==> x in indeg && indeg[x] == |Open(raw, deps, out, x)|
    requires forall x :: x in ready <==> x in raw && x !in out && indeg[x] == 0
    ensures LoopInv(raw, deps, pos, out, ready, indeg)
  {}

  lemma PlacedDistinct(raw: seq<Id>, deps: map<Id, seq<Id>>, out: seq<Id>)
    requires Placed(raw, deps, out)
    ensures Distinct(out)
  {
  }

  lemma NothingOpen(raw: seq<Id>, deps: map<Id, seq<Id>>, pos: map<Id, nat>, out: seq<Id>, ready: seq<Id>, indeg: map<Id, nat>)
    requires LoopInv(raw, deps, pos, out, ready, indeg) && ready != []
    ensures forall x :: x in out + [ready[0]] ==> Open(raw, deps, out, x) == {}
  {
    assert ready[0] in ready;
    forall x | x in out
      ensures Open(raw, deps, out, x) == {}
    {
      PlacedOpen(raw, deps, out, x);
    }
  }

  /** `order` is exact.  It succeeds if and only if the dependencies are acyclic; the result
      is then the least topological order by template position; otherwise the reported
      resources are exactly those on or downstream of a cycle. */
  method Order(raw: seq<Id>, deps: map<Id, seq<Id>>) returns (r: Ordering)
    requires Distinct(raw)
    ensures r.Ordered? <==> Acyclic(raw, deps)
    ensures r.Ordered? ==> LeastTopological(raw, deps, r.ids) && |r.ids| == |raw|
    ensures r.Circular? ==> r.stuck != [] && forall x :: x in r.stuck <==> x in raw && Tangled(raw, deps, x)
    ensures r.Circular? ==> InTemplateOrder(raw, r.stuck)
    ensures r.Ordered? ==> DependenciesFirst(raw, deps, r.ids)
  {
    hide LoopInv, Acyclic, Tangled, LeastTopological, Positions, Needs, Open, Distinct, SortedByPos, InTemplateOrder, DependenciesFirst;
    var pos := BuildPos(raw);
    var indeg, dependents := CountEdges(raw, deps);
    var ready := Select(raw, indeg, true);
    PositionsCover(raw, pos);
    ready := SortByPos(ready, pos);
    var out: seq<Id> := [];
    StartInv(raw, deps, pos, ready, indeg);
    while ready != []
      invariant LoopInv(raw, deps, pos, out, ready, indeg)
      invariant |out| <= |raw|
      decreases |raw| - |out|
    {
      var id := ready[0];
      LoopParts(raw, deps, pos, out, ready, indeg);
      ready, indeg := PlaceNext(raw, deps, pos, out, ready, indeg, dependents[id]);
      out := out + [id];
    }
    LoopParts(raw, deps, pos, out, ready, indeg);
    Verdict(raw, deps, pos, out, indeg);
    Fits(raw, out);
    if |out| != |raw| {
      var stuck := Select(raw, indeg, false);
      stuck := SortByPos(stuck, pos);
      SortedIsInOrder(raw, pos, stuck);
      r := Circular(stuck);
      ghost var x :| x in raw && x !in out;
      assert x in stuck;
    } else {
      TopologicalFirst(raw, deps, out);
      r := Ordered(out);
    }
  }

  lemma PositionsCover(raw: seq<Id>, pos: map<Id, nat>)
    requires Positions(raw, pos)
    ensures forall x :: x in raw <==> x in pos
    ensures forall x, y :: x in pos && y in pos && pos[x] == pos[y] ==> x == y
  {
  }

  lemma StartInv(raw: seq<Id>, deps: map<Id, seq<Id>>, pos: map<Id, nat>, ready: seq<Id>, indeg: map<Id, nat>)
    requires forall x :: x in raw ==> x in indeg && indeg[x] == |Open(raw, deps, [], x)|
    requires SortedByPos(ready, pos) && forall x :: x in ready <==> x in raw && indeg[x] == 0
    ensures LoopInv(raw, deps, pos, [], ready, indeg)
  {
  }

  lemma LoopParts(raw: seq<Id>, deps: map<Id, seq<Id>>, pos: map<Id, nat>, out: seq<Id>, ready: seq<Id>, indeg: map<Id, nat>)
    requires LoopInv(raw, deps, pos, out, ready, indeg)
    ensures forall x :: x in out ==> x in raw
    ensures Distinct(out)
    ensures ready != [] ==> ready[0] in raw
    ensures forall x :: x in raw ==> x in indeg
    ensures ready == [] ==> forall x :: x in raw ==> (x in out <==> indeg[x] == 0)
  {
    assert ready != [] ==> ready[0] in ready;
    forall x | x in out && x in raw
      ensures indeg[x] == 0
    {
      PlacedOpen(raw, deps, out, x);
    }
  }

  lemma TailMembers(ids: seq<Id>, pos: map<Id, nat>)
    requires SortedByPos(ids, pos) && ids != []
    ensures SortedByPos(ids[1..], pos)
    ensures forall x :: x in ids[1..] <==> x in ids && x != ids[0]
  {
    assert ids == [ids[0]] + ids[1..];
    assert forall k :: 0 < k < |ids| ==> pos[ids[0]] < pos[ids[k]];
  }
}
