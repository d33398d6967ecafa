/** How far a create has come: which resources are complete, and which still wait. */
module Settling {
  import opened Wrappers
  import opened Stack
  import opened History
  import opened Cluster
  import opened Readiness
  import opened Timing
  import Graph

  /** How a create ended.  `Undone` is a failure rolled back by a living process; `Unrecorded` one whose
      resources are all complete but whose record could not be written, `NotRecorded` one that could
      not even record its intent. */
  datatype Outcome = Created | NotRecorded | Unrecorded | Undone | Died

  /** Each started resource is in exactly one place: completed, waiting (queued, or among
      `due`, the waits running now), or broken. */
  ghost predicate PartitionOf(started: seq<Built>, completed: set<LogicalId>, pending: seq<Built>, due: seq<Built>, broken: set<LogicalId>) {
    && DistinctLids(pending) && DistinctLids(due)
    && completed !! Lids(pending) && completed !! Lids(due) && completed !! broken
    && Lids(pending) !! Lids(due) && Lids(pending) !! broken && Lids(due) !! broken
    && Lids(started) == completed + Lids(pending) + Lids(due) + broken
  }

  class Progress {
    const c: Cluster
    const waits: WaitQueue
    var completed: set<LogicalId>
    var failed: Option<LogicalId>
    /** Created, or put to wait, so far. */
    ghost var started: seq<Built>
    /** The resource whose wait failed. */
    ghost var broken: set<LogicalId>
    /** Where the cluster's journal stood when the operation began. */
    ghost const from: nat

    constructor (c: Cluster)
      ensures this.c == c && fresh(waits) && Valid() && started == [] && broken == {} && completed == {} && from == |c.journal|
    {
      this.c := c;
      from := |c.journal|;
      waits := new WaitQueue();
      completed, failed, started, broken := {}, None, [], {};
    }

    ghost predicate Partition(due: seq<Built>)
      reads this, waits
    {
      PartitionOf(started, completed, waits.pending, due, broken)
    }

    ghost predicate Valid()
      reads this, waits, c
    {
      Partition([]) && Backed()
    }

    /** What is complete has become ready. */
    ghost predicate Backed()
      reads this, c
    {
      CompletedReady(completed, c.journal, from)
    }

    /** One wait: if it passes, the resource may count as complete. */
    method RunWait(l: LogicalId, ghost j0: seq<Note>) returns (ok: bool)
      requires c.Logged() && Backed() && OnlyReady(j0, c.journal)
      modifies c
      ensures c.Logged() && (old(c.Guaranteed()) ==> c.Guaranteed()) && Later(old(c.Now()), c.Now(), c.quiet)
      ensures c.View() == old(c.View()) && c.record == old(c.record) && c.removed == old(c.removed)
      ensures c.deletes == old(c.deletes) && c.cut == old(c.cut) && c.met == old(c.met)
      ensures Backed() && OnlyReady(j0, c.journal) && (ok ==> CompletedReady(completed + {l}, c.journal, from))
      ensures if ok then c.refusals == old(c.refusals) else c.alive ==> c.refusals > old(c.refusals)
    {
      hide Tracks, ThingsAfter, KeepsToItsOwn, Accounted, Seen, CompletedReady, OnlyReady;
      ghost var j := c.journal;
      ok := c.Complete(l);
      WaitEnded(completed, j0, j, c.journal, from, l, ok);
    }

    /** The waits of `due` run together; their results arrive in any order.  The first failure
        is what is reported; what had not arrived by then does not complete. */
    method SettleWaits(due: seq<Built>) returns (bad: Option<Built>)
      requires DistinctLids(due) && Lids(due) !! completed && c.Logged() && Backed()
      modifies c, `completed
      ensures c.Logged() && (old(c.Guaranteed()) ==> c.Guaranteed()) && Later(old(c.Now()), c.Now(), c.quiet)
      ensures c.View() == old(c.View()) && c.record == old(c.record) && c.removed == old(c.removed)
      ensures c.deletes == old(c.deletes) && c.cut == old(c.cut) && c.met == old(c.met)
      ensures Backed() && OnlyReady(old(c.journal), c.journal)
      ensures old(completed) <= completed <= old(completed) + Lids(due)
      ensures bad.None? ==> completed == old(completed) + Lids(due)
      ensures bad.Some? ==> bad.value in due && bad.value.res.lid !in completed
      ensures if bad.None? then c.refusals == old(c.refusals) else c.alive ==> c.refusals > old(c.refusals)
    {
      hide Tracks, ThingsAfter, KeepsToItsOwn, Accounted, Seen, Later, Lids, DistinctLids, CompletedReady, OnlyReady, Running;
      ghost var j0, h0, v0, c0, ours := c.journal, c.Now(), c.View(), completed, c.Guaranteed();
      NoneEnded(j0);
      bad := None;
      var outstanding := set b | b in due;
      AllRunning(due, c0);
      NothingYet(h0, c.quiet);
      while outstanding != {}
        invariant c.Logged() && (ours ==> c.Guaranteed()) && Later(h0, c.Now(), c.quiet)
        invariant c.View() == v0 && c.record == old(c.record) && c.removed == old(c.removed)
        invariant c.deletes == h0.deletes && c.cut == h0.cut && c.met == h0.met
        invariant Backed() && OnlyReady(j0, c.journal) && Running(due, outstanding, c0, completed, bad)
        invariant if bad.None? then c.refusals == h0.refusals else c.alive ==> c.refusals > h0.refusals
        decreases |outstanding|
      {
        var b :| b in outstanding;
        ghost var h := c.Now();
        var ok := RunWait(b.res.lid, j0);
        LaterOn(h0, h, c.Now(), c.quiet);
        OneLess(due, outstanding, c0, completed, bad, b, ok);
        outstanding := outstanding - {b};
        if bad.None? {
          if ok {
            completed := completed + {b.res.lid};
          } else {
            bad := Some(b);
          }
        }
      }
      NoneRunning(due, c0, completed, bad);
    }

    /** settle: what a failed round left unfinished goes back to the queue, to be cancelled. */
    method Settle(due: seq<Built>) returns (ok: bool)
      requires Partition(due) && Backed() && broken == {} && c.Logged()
      modifies this, c, waits
      ensures c.Logged() && (old(c.Guaranteed()) ==> c.Guaranteed()) && Later(old(c.Now()), c.Now(), c.quiet)
      ensures c.View() == old(c.View()) && c.record == old(c.record) && c.removed == old(c.removed)
      ensures c.deletes == old(c.deletes) && c.cut == old(c.cut) && c.met == old(c.met)
      ensures started == old(started) && OnlyReady(old(c.journal), c.journal)
      ensures Valid()
      ensures ok ==> broken == {} && waits.pending == old(waits.pending) && completed == old(completed) + Lids(due)
      ensures !ok ==> exists l :: broken == {l} && l in Lids(due) && failed == Some(l)
      ensures if ok then c.refusals == old(c.refusals) else c.alive ==> c.refusals > old(c.refusals)
    {
      ghost var c0, p0 := completed, waits.pending;
      var bad := SettleWaits(due);
      ok := bad.None?;
      if ok {
        SettledAll(started, c0, p0, due);
        return;
      }
      var l := bad.value.res.lid;
      failed, broken := Some(l), {l};
      LidsAre(due);
      hide Lids, DistinctLids, PartitionOf;
      PartitionFacts(started, c0, p0, due);
      Requeue(due, l);
      SettledPartition(started, c0, p0, due, completed, waits.pending, l);
    }

    /** What did not complete, but for the one that failed, is queued again. */
    method Requeue(due: seq<Built>, l: LogicalId)
      requires DistinctLids(due) && DistinctLids(waits.pending) && Lids(due) !! Lids(waits.pending)
      modifies waits
      ensures DistinctLids(waits.pending)
      ensures Lids(waits.pending) == old(Lids(waits.pending)) + (Lids(due) - completed - {l})
    {
      ghost var p0, done := waits.pending, completed;
      NothingRequeued(due, p0, done, l);
      hide Lids, DistinctLids, Depends, PartitionOf, RequeuedUpto;
      for n := 0 to |due|
        invariant completed == done && RequeuedUpto(due, n, waits.pending, p0, done, l)
      {
        Requeued(due, n, waits.pending, p0, done, l);
        if due[n].res.lid != l && due[n].res.lid !in completed {
          waits.Add(due[n]);
        }
      }
      AllRequeued(due, waits.pending, p0, done, l);
    }

    /** Whatever the next resource depends on completes first, or the create fails. */
    method Await(after: set<Graph.Id>) returns (ok: bool)
      requires Valid() && broken == {} && c.Logged()
      modifies this, c, waits
      ensures c.Logged() && (old(c.Guaranteed()) ==> c.Guaranteed()) && Later(old(c.Now()), c.Now(), c.quiet)
      ensures c.View() == old(c.View()) && c.record == old(c.record) && c.removed == old(c.removed)
      ensures c.deletes == old(c.deletes) && c.cut == old(c.cut) && c.met == old(c.met)
      ensures Valid() && started == old(started) && OnlyReady(old(c.journal), c.journal)
      ensures ok ==> broken == {} && Clear(started, completed, after)
      ensures if ok then c.refusals == old(c.refusals) else c.alive ==> c.refusals > old(c.refusals)
    {
      DueSplits(waits.pending, after);
      ghost var pending0, c0 := waits.pending, completed;
      var due := waits.TakeDue(after);
      ok := Settle(due);
      if ok {
        DueCleared(started, c0, pending0, completed, after);
      }
    }

    /** All that is left to wait for. */
    method AwaitAll() returns (ok: bool)
      requires Valid() && broken == {} && c.Logged()
      modifies this, c, waits
      ensures c.Logged() && (old(c.Guaranteed()) ==> c.Guaranteed()) && Later(old(c.Now()), c.Now(), c.quiet)
      ensures c.View() == old(c.View()) && c.record == old(c.record) && c.removed == old(c.removed)
      ensures c.deletes == old(c.deletes) && c.cut == old(c.cut) && c.met == old(c.met)
      ensures Valid() && started == old(started) && OnlyReady(old(c.journal), c.journal)
      ensures ok ==> broken == {} && completed == Lids(started)
      ensures if ok then c.refusals == old(c.refusals) else c.alive ==> c.refusals > old(c.refusals)
    {
      LidsNil();
      var all := waits.TakeAll();
      ok := Settle(all);
    }

    /** The resource is created; its wait joins the queue. */
    method Enqueue(b: Built)
      requires Valid() && broken == {} && b.res.lid !in Lids(started)
      modifies this, waits
      ensures Valid() && broken == {} && started == old(started) + [b] && completed == old(completed) && failed == old(failed)
    {
      hide Depends;
      Queued(started, completed, waits.pending, b);
      hide PartitionOf;
      waits.Add(b);
      started := started + [b];
    }

    /** The resource is created and ready at once. */
    method Finished(b: Built)
      requires Valid() && broken == {} && b.res.lid !in Lids(started) && ReadyBy(c.journal, from, |c.journal|, b.res.lid)
      modifies this
      ensures Valid() && broken == {} && started == old(started) + [b] && completed == old(completed) + {b.res.lid} && failed == old(failed)
    {
      hide Depends;
      LidsSnoc(started, b);
      started := started + [b];
      completed := completed + {b.res.lid};
    }
  }

  /** The waits of `outstanding` have not ended; up to the first failure the others have passed. */
  ghost predicate Running(due: seq<Built>, outstanding: set<Built>, c0: set<LogicalId>, completed: set<LogicalId>, bad: Option<Built>) {
    && (forall b :: b in outstanding ==> b in due && b.res.lid !in completed)
    && c0 <= completed <= c0 + Lids(due)
    && (bad.None? ==> forall b :: b in due && b !in outstanding ==> b.res.lid in completed)
    && (bad.Some? ==> bad.value in due && bad.value.res.lid !in completed && bad.value !in outstanding)
  }

  lemma AllRunning(due: seq<Built>, c0: set<LogicalId>)
    requires Lids(due) !! c0
    ensures Running(due, (set b | b in due), c0, c0, None)
  {
    LidsAre(due);
  }

  lemma OneLess(due: seq<Built>, outstanding: set<Built>, c0: set<LogicalId>, completed: set<LogicalId>, bad: Option<Built>, b: Built, ok: bool)
    requires DistinctLids(due) && Running(due, outstanding, c0, completed, bad) && b in outstanding
    ensures Running(due, outstanding - {b}, c0, if bad.None? && ok then completed + {b.res.lid} else completed,
                    if bad.None? && !ok then Some(b) else bad)
  {
    SameLidSame(due, b);
    hide DistinctLids, Lids;
  }

  lemma NoneRunning(due: seq<Built>, c0: set<LogicalId>, completed: set<LogicalId>, bad: Option<Built>)
    requires Running(due, {}, c0, completed, bad)
    ensures c0 <= completed <= c0 + Lids(due)
    ensures bad.None? ==> completed == c0 + Lids(due)
    ensures bad.Some? ==> bad.value in due && bad.value.res.lid !in completed
  {
    LidsAre(due);
  }

  lemma SameLidSame(bs: seq<Built>, b: Built)
    requires DistinctLids(bs) && b in bs
    ensures forall b' :: b' in bs && b'.res.lid == b.res.lid ==> b' == b
    ensures b.res.lid in Lids(bs)
  {
    var i :| 0 <= i < |bs| && bs[i] == b;
  }

  lemma LidsAre(bs: seq<Built>)
    ensures forall l :: l in Lids(bs) <==> exists b :: b in bs && b.res.lid == l
  {
    forall b | b in bs
      ensures b.res.lid in Lids(bs)
    {
      var i :| 0 <= i < |bs| && bs[i] == b;
    }
  }

  lemma LidsSnoc(bs: seq<Built>, b: Built)
    ensures Lids(bs + [b]) == Lids(bs) + {b.res.lid}
  {
    var all := bs + [b];
    assert all[|bs|] == b;
    assert forall i :: 0 <= i < |bs| ==> all[i] == bs[i];
  }

  lemma FreshLid(bs: seq<Built>, n: nat)
    requires DistinctLids(bs) && n < |bs|
    ensures bs[n].res.lid !in Lids(bs[..n])
  {
    assert forall i :: 0 <= i < n ==> bs[..n][i] == bs[i];
  }

  lemma DistinctLidsSnoc(bs: seq<Built>, b: Built)
    requires DistinctLids(bs) && b.res.lid !in Lids(bs)
    ensures DistinctLids(bs + [b])
  {
    assert forall i :: 0 <= i < |bs| ==> bs[i].res.lid in Lids(bs);
  }

  /** The first `n` due resources looked at: queued again unless complete or the one that failed. */
  ghost predicate RequeuedUpto(due: seq<Built>, n: nat, pending: seq<Built>, p0: seq<Built>, completed: set<LogicalId>, l: LogicalId) {
    && n <= |due| && DistinctLids(due) && DistinctLids(pending) && Lids(due) !! Lids(p0)
    && Lids(pending) == Lids(p0) + (Lids(due[..n]) - completed - {l})
  }

  lemma NothingRequeued(due: seq<Built>, p0: seq<Built>, completed: set<LogicalId>, l: LogicalId)
    requires DistinctLids(due) && DistinctLids(p0) && Lids(due) !! Lids(p0)
    ensures RequeuedUpto(due, 0, p0, p0, completed, l)
  {
    assert due[..0] == [];
    LidsNil();
    hide Lids;
  }

  lemma AllRequeued(due: seq<Built>, pending: seq<Built>, p0: seq<Built>, completed: set<LogicalId>, l: LogicalId)
    requires RequeuedUpto(due, |due|, pending, p0, completed, l)
    ensures DistinctLids(pending) && Lids(pending) == Lids(p0) + (Lids(due) - completed - {l})
  {
    assert due[..|due|] == due;
  }

  lemma Requeued(due: seq<Built>, n: nat, pending: seq<Built>, p0: seq<Built>, completed: set<LogicalId>, l: LogicalId)
    requires RequeuedUpto(due, n, pending, p0, completed, l) && n < |due|
    ensures var back := due[n].res.lid != l && due[n].res.lid !in completed;
            RequeuedUpto(due, n + 1, if back then pending + [due[n]] else pending, p0, completed, l)
  {
    assert due[..n + 1] == due[..n] + [due[n]];
    LidsSnoc(due[..n], due[n]);
    LidsSnoc(pending, due[n]);
    FreshLid(due, n);
    assert due[n].res.lid in Lids(due);
    if due[n].res.lid != l && due[n].res.lid !in completed {
      DistinctLidsSnoc(pending, due[n]);
    }
  }

  lemma PartitionFacts(started: seq<Built>, completed: set<LogicalId>, pending: seq<Built>, due: seq<Built>)
    requires PartitionOf(started, completed, pending, due, {})
    ensures DistinctLids(pending) && DistinctLids(due) && Lids(due) !! Lids(pending)
  {}

  lemma SettledPartition(started: seq<Built>, c0: set<LogicalId>, p0: seq<Built>, due: seq<Built>,
                         completed: set<LogicalId>, pending: seq<Built>, l: LogicalId)
    requires PartitionOf(started, c0, p0, due, {}) && DistinctLids(pending)
    requires l in Lids(due) && l !in completed && c0 <= completed <= c0 + Lids(due)
    requires Lids(pending) == Lids(p0) + (Lids(due) - completed - {l})
    ensures PartitionOf(started, completed, pending, [], {l})
  {
    assert Lids([]) == {} && DistinctLids([]);
    hide Lids, DistinctLids;
  }

  lemma SettledAll(started: seq<Built>, c0: set<LogicalId>, p0: seq<Built>, due: seq<Built>)
    requires PartitionOf(started, c0, p0, due, {})
    ensures PartitionOf(started, c0 + Lids(due), p0, [], {})
  {
    LidsNil();
    hide Lids, DistinctLids;
  }

  lemma DueCleared(started: seq<Built>, c0: set<LogicalId>, pending: seq<Built>, completed: set<LogicalId>, after: set<Graph.Id>)
    requires PartitionOf(started, c0, pending, [], {}) && completed == c0 + Lids(Due(pending, after))
    ensures Clear(started, completed, after)
  {
    DueMembers(pending, after);
    LidsAre(started);
    LidsAre(pending);
    LidsAre(Due(pending, after));
    LidsNil();
    forall b | b in started && b.res.lid.base in after ensures b.res.lid in completed {
      if b.res.lid in Lids(pending) {
        var p :| p in pending && p.res.lid == b.res.lid;
        assert p in Due(pending, after);
      }
    }
  }

  lemma Queued(started: seq<Built>, completed: set<LogicalId>, pending: seq<Built>, b: Built)
    requires PartitionOf(started, completed, pending, [], {}) && b.res.lid !in Lids(started)
    ensures PartitionOf(started + [b], completed, pending + [b], [], {})
  {
    LidsSnoc(started, b);
    LidsSnoc(pending, b);
    DistinctLidsSnoc(pending, b);
  }
}
