/** When a create makes things: nothing before all that it depends on is ready.  Read off the journal,
    which has every write of the stack in order, so it speaks of what was made, by then and by whichever
    point the process died at. */
module Timing {
  import opened Stack
  import opened History
  import opened Readiness
  import Graph

  /** An order to create in: distinct logical ids and things, and what one depends on comes before it. */
  ghost predicate Orderly(me: StackName, order: seq<Built>) {
    && DistinctLids(order)
    && (forall i, j :: 0 <= i < j < |order| ==> IdentOf(me, order[i].res) != IdentOf(me, order[j].res))
    && OrderRespectsAfter(order)
  }

  /** Whenever a thing of `order` was made, since entry `from`, everything it depends on was ready. */
  ghost predicate InTime(me: StackName, order: seq<Built>, journal: seq<Note>, from: nat) {
    forall n, k, j :: from <= n < |journal| && 0 <= k < |order| && 0 <= j < |order| ==>
      journal[n] == Made(IdentOf(me, order[k].res)) && Depends(order[k], order[j]) ==> ReadyBy(journal, from, n, order[j].res.lid)
  }

  ghost predicate AllReady(order: seq<Built>, journal: seq<Note>, from: nat) {
    forall k :: 0 <= k < |order| ==> ReadyBy(journal, from, |journal|, order[k].res.lid)
  }

  /** What counts as complete has become ready. */
  ghost predicate CompletedReady(completed: set<LogicalId>, journal: seq<Note>, from: nat) {
    from <= |journal| && forall l :: l in completed ==> ReadyBy(journal, from, |journal|, l)
  }

  /** Everything created so far that the resource depends on is complete. */
  ghost predicate Clear(started: seq<Built>, completed: set<LogicalId>, after: set<Graph.Id>) {
    forall b :: b in started && b.res.lid.base in after ==> b.res.lid in completed
  }

  /** `b` is next in the order, and all it depends on is complete. */
  ghost predicate Turn(order: seq<Built>, started: seq<Built>, completed: set<LogicalId>, journal: seq<Note>, from: nat, b: Built) {
    && started + [b] <= order
    && Clear(started, completed, b.after - {b.res.lid.base}) && CompletedReady(completed, journal, from)
  }

  lemma ClearLess(started: seq<Built>, completed: set<LogicalId>, after: set<Graph.Id>, base: Graph.Id)
    requires Clear(started, completed, after)
    ensures Clear(started, completed, after - {base})
  {
  }

  lemma NothingMade(me: StackName, order: seq<Built>, journal: seq<Note>)
    ensures InTime(me, order, journal, |journal|)
  {
  }

  lemma ReadyLater(j0: seq<Note>, j1: seq<Note>, from: nat, n: nat, n': nat, l: LogicalId)
    requires j0 <= j1 && n <= n' && ReadyBy(j0, from, n, l)
    ensures ReadyBy(j1, from, n', l)
  {
    var m :| from <= m < n && m < |j0| && j0[m] == Ready(l);
    assert j1[m] == Ready(l);
  }

  lemma StillReady(completed: set<LogicalId>, j0: seq<Note>, j1: seq<Note>, from: nat)
    requires CompletedReady(completed, j0, from) && j0 <= j1
    ensures CompletedReady(completed, j1, from)
  {
    forall l | l in completed ensures ReadyBy(j1, from, |j1|, l) {
      ReadyLater(j0, j1, from, |j0|, |j1|, l);
    }
  }

  lemma NoneEnded(j: seq<Note>)
    ensures OnlyReady(j, j)
  {
  }

  /** One more wait has ended: it passed, or it did not. */
  lemma WaitEnded(completed: set<LogicalId>, j0: seq<Note>, j: seq<Note>, j': seq<Note>, from: nat, l: LogicalId, ok: bool)
    requires CompletedReady(completed, j, from) && OnlyReady(j0, j) && j' == j + if ok then [Ready(l)] else []
    ensures CompletedReady(completed, j', from) && OnlyReady(j0, j')
    ensures ok ==> CompletedReady(completed + {l}, j', from)
  {
    StillReady(completed, j, j', from);
    if ok {
      assert j'[|j|] == Ready(l);
    }
  }

  /** Waiting makes nothing. */
  lemma WaitsInTime(me: StackName, order: seq<Built>, j0: seq<Note>, j1: seq<Note>, from: nat)
    requires InTime(me, order, j0, from) && OnlyReady(j0, j1)
    ensures InTime(me, order, j1, from)
  {
    hide IdentOf, Depends, ReadyBy;
    forall n, k, j | from <= n < |j1| && 0 <= k < |order| && 0 <= j < |order| &&
      j1[n] == Made(IdentOf(me, order[k].res)) && Depends(order[k], order[j])
      ensures ReadyBy(j1, from, n, order[j].res.lid)
    {
      assert n < |j0| && j0[n] == j1[n];
      ReadyLater(j0, j1, from, n, n, order[j].res.lid);
    }
  }

  /** The next resource of the order is made once what it depends on is complete. */
  lemma MadeInTime(me: StackName, order: seq<Built>, started: seq<Built>, completed: set<LogicalId>, journal: seq<Note>, from: nat, b: Built)
    requires Orderly(me, order) && InTime(me, order, journal, from) && Turn(order, started, completed, journal, from, b)
    ensures InTime(me, order, journal + [Made(IdentOf(me, b.res))], from)
  {
    hide IdentOf, ReadyBy, DistinctLids;
    var after, at := journal + [Made(IdentOf(me, b.res))], |started|;
    assert (started + [b])[at] == b && order[at] == b;
    forall n, k, j | from <= n < |after| && 0 <= k < |order| && 0 <= j < |order| &&
      after[n] == Made(IdentOf(me, order[k].res)) && Depends(order[k], order[j])
      ensures ReadyBy(after, from, n, order[j].res.lid)
    {
      if n < |journal| {
        assert journal[n] == after[n];
        ReadyLater(journal, after, from, n, n, order[j].res.lid);
      } else {
        assert k == at;
        assert j < at && (started + [b])[j] == order[j] && started[j] == order[j];
        assert order[j] in started;
        ReadyLater(journal, after, from, |journal|, n, order[j].res.lid);
      }
    }
  }

  /** A hook, called when it is its resource's turn. */
  lemma HookInTime(me: StackName, order: seq<Built>, started: seq<Built>, completed: set<LogicalId>, j0: seq<Note>, j1: seq<Note>, from: nat, b: Built)
    requires Orderly(me, order) && InTime(me, order, j0, from) && Turn(order, started, completed, j0, from, b)
    requires var made, ready := Made(IdentOf(me, b.res)), Ready(b.res.lid);
             j1 == j0 || j1 == j0 + [made] || j1 == j0 + [made, ready]
    ensures InTime(me, order, j1, from) && j0 <= j1
    ensures j1 == j0 + [Made(IdentOf(me, b.res)), Ready(b.res.lid)] ==> ReadyBy(j1, from, |j1|, b.res.lid)
  {
    var made := j0 + [Made(IdentOf(me, b.res))];
    MadeInTime(me, order, started, completed, j0, from, b);
    hide InTime, Orderly, Turn, IdentOf;
    if j1 == j0 + [Made(IdentOf(me, b.res)), Ready(b.res.lid)] {
      assert j1 == made + [Ready(b.res.lid)] && j1[|made|] == Ready(b.res.lid);
      WaitsInTime(me, order, made, j1, from);
      assert from <= |made| by { TurnFrom(order, started, completed, j0, from, b); }
    }
  }

  lemma TurnFrom(order: seq<Built>, started: seq<Built>, completed: set<LogicalId>, journal: seq<Note>, from: nat, b: Built)
    requires Turn(order, started, completed, journal, from, b)
    ensures from <= |journal|
  {
  }

  /** What is next has a logical id of its own. */
  lemma NextIsFresh(me: StackName, order: seq<Built>, started: seq<Built>, b: Built)
    requires Orderly(me, order) && started + [b] <= order
    ensures b.res.lid !in Lids(started)
  {
    var all := started + [b];
    assert all[|started|] == b && order[|started|] == b;
    forall i | 0 <= i < |started| ensures started[i].res.lid != b.res.lid {
      assert all[i] == started[i] && order[i] == started[i];
    }
  }

  /** All of a plan that has been gone through is ready once all of it is complete. */
  lemma CompleteIsReady(order: seq<Built>, completed: set<LogicalId>, journal: seq<Note>, from: nat)
    requires CompletedReady(completed, journal, from) && completed == Lids(order)
    ensures AllReady(order, journal, from)
  {
    forall k | 0 <= k < |order| ensures ReadyBy(journal, from, |journal|, order[k].res.lid) {
      assert order[k].res.lid in Lids(order);
    }
  }
}
