/** Creating a stack: the record first, then each resource once what it depends on is complete,
    with an in-process rollback of whatever was applied when anything fails. */
module Deploy {
  import opened Wrappers
  import opened Stack
  import opened History
  import opened Cluster
  import opened Ownership
  import opened Teardown
  import opened Readiness
  import opened Timing
  import opened Settling
  import Graph

  /** What has an object to apply: all but wait conditions. */
  ghost function AppliedOf(bs: seq<Built>): seq<Resource> {
    if bs == [] then []
    else AppliedOf(bs[..|bs| - 1]) + (if bs[|bs| - 1].res.nature.SignalWait? then [] else [bs[|bs| - 1].res])
  }

  /** The things a list of resources makes. */
  ghost function Makes(me: StackName, rs: seq<Resource>): Things {
    if rs == [] then map[]
    else Makes(me, rs[..|rs| - 1])[IdentOf(me, rs[|rs| - 1]) := Thing(Some(me), rs[|rs| - 1].spec)]
  }

  lemma {:induction false} MakesHas(me: StackName, rs: seq<Resource>, id: Ident)
    ensures id in Makes(me, rs) <==> exists i :: 0 <= i < |rs| && IdentOf(me, rs[i]) == id
    ensures id in Makes(me, rs) ==> Mine(me, Makes(me, rs)[id])
    decreases |rs|
  {
    if rs != [] {
      var init := rs[..|rs| - 1];
      MakesHas(me, init, id);
      assert forall i :: 0 <= i < |init| ==> init[i] == rs[i];
    }
  }

  lemma {:induction false} AppliedMembers(bs: seq<Built>, r: Resource)
    ensures r in AppliedOf(bs) <==> exists i :: 0 <= i < |bs| && bs[i].res == r && !r.nature.SignalWait?
    decreases |bs|
  {
    if bs != [] {
      var init := bs[..|bs| - 1];
      AppliedMembers(init, r);
      assert forall i :: 0 <= i < |init| ==> init[i] == bs[i];
    }
  }

  lemma {:induction false} AppliedDistinct(me: StackName, bs: seq<Built>)
    requires DistinctIdents(me, ResourcesOf(bs))
    ensures DistinctIdents(me, AppliedOf(bs))
    decreases |bs|
  {
    if bs != [] {
      var n := |bs| - 1;
      var init := bs[..n];
      assert forall i :: 0 <= i < n ==> ResourcesOf(init)[i] == ResourcesOf(bs)[i];
      AppliedDistinct(me, init);
      forall i | 0 <= i < |AppliedOf(init)|
        ensures IdentOf(me, AppliedOf(init)[i]) != IdentOf(me, bs[n].res)
      {
        AppliedMembers(init, AppliedOf(init)[i]);
        var k :| 0 <= k < |init| && init[k].res == AppliedOf(init)[i];
        assert ResourcesOf(bs)[k] == init[k].res && ResourcesOf(bs)[n] == bs[n].res;
      }
    }
  }

  /** What was there is untouched, and what is new is of the plan, as specified. */
  ghost predicate FootprintOf(me: StackName, plan: seq<Resource>, v0: Things, view: Things) {
    && (forall id :: id in v0 ==> id in view && view[id] == v0[id])
    && (forall id :: id in view && id !in v0 ==> id in Idents(me, plan) && Mine(me, view[id]))
    && AsSpecified(me, plan, v0, view)
  }

  /** What was applied is there, is this stack's, was not there before, and is what the
      operation owns. */
  ghost predicate AppliedOursOf(me: StackName, v0: Things, view: Things, applied: seq<Resource>, owned: set<Ident>) {
    && (forall i :: 0 <= i < |applied| ==> IdentOf(me, applied[i]) in owned)
    && (forall id :: id in owned ==> id in view && Mine(me, view[id]) && id !in v0)
    && (forall id :: id in owned ==> exists i :: 0 <= i < |applied| && IdentOf(me, applied[i]) == id)
  }

  /** Resources start in plan order, and what has an object is applied. */
  ghost predicate BookkeepingOf(order: seq<Built>, started: seq<Built>, applied: seq<Resource>) {
    && |started| <= |order| && started == order[..|started|]
    && applied == AppliedOf(started)
  }

  lemma FootprintGrows(me: StackName, plan: seq<Resource>, v0: Things, view: Things, id: Ident, spec: string)
    requires FootprintOf(me, plan, v0, view) && id in Idents(me, plan) && id !in v0 && Specified(me, plan, id, Thing(Some(me), spec))
    ensures FootprintOf(me, plan, v0, view[id := Thing(Some(me), spec)])
  {
  }

  lemma AppliedOursGrows(me: StackName, v0: Things, view: Things, applied: seq<Resource>, owned: set<Ident>, r: Resource)
    requires AppliedOursOf(me, v0, view, applied, owned) && IdentOf(me, r) !in v0
    ensures AppliedOursOf(me, v0, view[IdentOf(me, r) := Thing(Some(me), r.spec)], applied + [r], owned + {IdentOf(me, r)})
    ensures AppliedOursOf(me, v0, view[IdentOf(me, r) := Thing(Some(me), r.spec)], applied, owned)
  {
    var all := applied + [r];
    assert all[|applied|] == r && forall i :: 0 <= i < |applied| ==> all[i] == applied[i];
    forall id | id in owned
      ensures exists i :: 0 <= i < |all| && IdentOf(me, all[i]) == id
    {
      var i :| 0 <= i < |applied| && IdentOf(me, applied[i]) == id;
      assert IdentOf(me, all[i]) == id;
    }
  }

  lemma MakesSnoc(me: StackName, applied: seq<Resource>, r: Resource)
    ensures Makes(me, applied + [r]) == Makes(me, applied)[IdentOf(me, r) := Thing(Some(me), r.spec)]
  {
    assert (applied + [r])[..|applied + [r]| - 1] == applied;
  }

  class Deployment {
    const c: Cluster
    const p: Progress
    const order: seq<Built>
    /** The cluster before the operation. */
    ghost const v0: Things
    var applied: seq<Resource>
    var owned: set<Ident>

    constructor (c: Cluster, order: seq<Built>)
      requires Sound(c.me, order) && c.Guaranteed()
      ensures this.c == c && this.order == order && v0 == c.View() && fresh(p) && fresh(p.waits)
      ensures Valid() && Exact() && p.started == [] && applied == [] && p.broken == {} && p.from == |c.journal|
    {
      this.c, this.order := c, order;
      v0 := c.View();
      p := new Progress(c);
      applied, owned := [], {};
    }

    /** A plan: distinct logical ids and things, objects and wait conditions only, in an order
        that respects dependencies. */
    static ghost predicate Sound(me: StackName, order: seq<Built>) {
      && DistinctLids(order)
      && DistinctIdents(me, ResourcesOf(order))
      && OrderRespectsAfter(order)
      && forall i :: 0 <= i < |order| ==> order[i].res.nature.Object? || order[i].res.nature.SignalWait?
    }

    ghost predicate Footprint()
      reads this, c
    {
      FootprintOf(c.me, ResourcesOf(order), v0, c.View())
    }

    ghost predicate Bookkeeping()
      reads this, p
    {
      BookkeepingOf(order, p.started, applied)
    }

    ghost predicate AppliedOurs()
      reads this, c
    {
      AppliedOursOf(c.me, v0, c.View(), applied, owned)
    }

    ghost predicate Valid()
      reads this, c, p, p.waits
    {
      && Sound(c.me, order) && c.Guaranteed() && p.c == c
      && Bookkeeping() && Footprint() && AppliedOurs()
      && p.Valid() && OnTime()
    }

    /** Nothing was made before all it depends on was ready. */
    ghost predicate OnTime()
      reads this, c
    {
      InTime(c.me, order, c.journal, p.from)
    }

    /** While the process lives, the cluster is the old one plus what was applied. */
    ghost predicate Exact()
      reads this, c
    {
      c.View() == v0 + Makes(c.me, applied)
    }

    /** What was there before, and what a rollback keeps of what was applied. */
    ghost predicate Restored()
      reads this, c
    {
      c.View() == v0 + (Makes(c.me, applied) - Doomed(c.me, applied, true))
    }

    ghost predicate Recorded(status: Status)
      reads this, c
    {
      c.record == Some(Record(status, ResourcesOf(order), []))
    }

    /** The rollback closure: waits still queued are cancelled, what was applied is deleted
        newest first, and the outcome is recorded.  If every delete succeeds the cluster is restored,
        whatever becomes of the record. */
    method Rollback()
      requires Valid() && (c.alive ==> Exact()) && Recorded(InProgress)
      modifies c, p.waits
      ensures p.waits.pending == []
      ensures c.Guaranteed() && Footprint() && Later(old(c.Now()), c.Now(), c.quiet) && c.met == old(c.met) && c.journal == old(c.journal)
      ensures c.record.Some? && c.record.value.resources == ResourcesOf(order) && c.record.value.pending == []
      ensures c.record.value.status in {InProgress, RolledBack, RollbackFailed}
      ensures c.record.value.status.RollbackFailed? ==> c.deletes > old(c.deletes)
      ensures DeletesWork(old(c.Now()), c.Now()) || c.record.value.status.RolledBack? ==>
                Restored() && c.removed == old(c.removed) + DoomedOrder(c.me, applied, true)
      ensures Flawless(old(c.Now()), c.Now()) ==> Recorded(RolledBack)
      ensures c.record.value.status.InProgress? ==> !old(c.alive) || c.refusals > old(c.refusals) || c.crashes > old(c.crashes)
    {
      AppliedFacts();
      hide Tracks, ThingsAfter, KeepsToItsOwn, Accounted, Seen, Later, FootprintOf, AppliedOursOf, BookkeepingOf, PartitionOf, InTime, CompletedReady, Sound, Makes;
      ghost var h0, v := c.Now(), c.View();
      NothingYet(h0, c.quiet);
      var _ := p.waits.TakeAll();
      var ok := RollbackCreate(c, applied);
      ghost var h1, v1 := c.Now(), c.View();
      LaterOn(h0, h0, h1, c.quiet);
      FootprintShrinks(v0, v, v1, c.me, applied, ResourcesOf(order));
      var status := if ok then RolledBack else RollbackFailed;
      var _ := c.WriteRecord(Record(status, ResourcesOf(order), []));
      LaterOn(h0, h1, c.Now(), c.quiet);
    }

    lemma AppliedFacts()
      requires Valid()
      ensures DistinctIdents(c.me, applied)
      ensures forall i :: 0 <= i < |applied| ==>
                !applied[i].nature.SignalWait? && Deletable(c.me, c.View(), IdentOf(c.me, applied[i])) && IdentOf(c.me, applied[i]) !in v0
      ensures forall id :: id in Doomed(c.me, applied, true) ==> id !in v0
    {
      assert forall i :: 0 <= i < |p.started| ==> ResourcesOf(p.started)[i] == ResourcesOf(order)[i];
      AppliedDistinct(c.me, p.started);
      forall i | 0 <= i < |applied|
        ensures !applied[i].nature.SignalWait?
      {
        AppliedMembers(p.started, applied[i]);
      }
    }

    /** Apply the resource unless it is a wait condition. */
    method ApplyNext(b: Built) returns (ok: bool)
      requires Valid() && |p.started| < |order| && b == order[|p.started|] && (c.alive ==> Exact())
      requires Clear(p.started, p.completed, b.after - {b.res.lid.base})
      modifies `applied, `owned, c
      ensures p.Valid() && OnTime() && old(c.journal) <= c.journal
      ensures c.Guaranteed() && Footprint() && AppliedOurs() && c.record == old(c.record) && c.removed == old(c.removed)
      ensures Later(old(c.Now()), c.Now(), c.quiet) && c.deletes == old(c.deletes) && c.cut == old(c.cut)
      ensures c.alive ==> Exact()
      ensures applied == if ok && !b.res.nature.SignalWait? then old(applied) + [b.res] else old(applied)
      ensures ok ==> c.refusals == old(c.refusals) && c.met == old(c.met) && (b.res.nature.SignalWait? || IdentOf(c.me, b.res) !in v0)
      ensures !ok && c.alive ==>
                c.refusals > old(c.refusals) || (!b.res.nature.SignalWait? && (c.met > old(c.met) || IdentOf(c.me, b.res) in v0))
      ensures c.alone && c.met > old(c.met) ==> !b.res.nature.SignalWait? && (c.alive ==> IdentOf(c.me, b.res) in v0)
    {
      hide Tracks, ThingsAfter, KeepsToItsOwn, Accounted, Seen, Later, FootprintOf, AppliedOursOf, BookkeepingOf, PartitionOf, InTime, CompletedReady, Sound, Makes;
      NothingYet(c.Now(), c.quiet);
      if b.res.nature.SignalWait? {
        return true;
      }
      var id := IdentOf(c.me, b.res);
      ghost var v, h0, journal := c.View(), c.Now(), c.journal;
      PlanLists(c.me, order, |p.started|);
      NextInTime(c.me, order, p.started, applied, p.completed, journal, p.from, b);
      OwnedSeen(c.me, v0, v, applied, owned);
      NotMadeYet(c.me, order, p.started, applied, owned, v0, v, b);
      ghost var were := owned;
      ok, owned := ApplyOwned(c, id, b.res.spec, owned);
      LaterOn(h0, h0, c.Now(), c.quiet);
      StillReady(p.completed, journal, c.journal, p.from);
      if c.View() != v {
        OwnedFresh(c.me, ResourcesOf(order), v0, v, applied, were, id);
        FootprintGrows(c.me, ResourcesOf(order), v0, v, id, b.res.spec);
        AppliedOursGrows(c.me, v0, v, applied, were, b.res);
      }
      if ok {
        OwnedFresh(c.me, ResourcesOf(order), v0, v, applied, were, id);
        FootprintGrows(c.me, ResourcesOf(order), v0, v, id, b.res.spec);
        AppliedOursGrows(c.me, v0, v, applied, were, b.res);
        MakesSnoc(c.me, applied, b.res);
        applied := applied + [b.res];
      }
    }

    /** One round of the create loop.  It takes a failure, or a name that is taken, to stop it. */
    method Provision(b: Built) returns (ok: bool)
      requires Valid() && p.broken == {} && |p.started| < |order| && b == order[|p.started|] && (c.alive ==> Exact())
      modifies this, c, p, p.waits
      ensures Valid() && old(c.journal) <= c.journal && c.record == old(c.record) && c.removed == old(c.removed)
      ensures Later(old(c.Now()), c.Now(), c.quiet) && c.deletes == old(c.deletes) && c.cut == old(c.cut)
      ensures c.alive ==> Exact()
      ensures ok ==> p.broken == {} && |p.started| == old(|p.started|) + 1
      ensures ok ==> c.refusals == old(c.refusals) && c.met == old(c.met) && (b.res.nature.SignalWait? || IdentOf(c.me, b.res) !in v0)
      ensures !ok && c.alive ==>
                c.refusals > old(c.refusals) || (!b.res.nature.SignalWait? && (c.met > old(c.met) || IdentOf(c.me, b.res) in v0))
      ensures c.alone && c.met > old(c.met) ==> !b.res.nature.SignalWait? && (c.alive ==> IdentOf(c.me, b.res) in v0)
    {
      hide Tracks, ThingsAfter, KeepsToItsOwn, Accounted, Seen, Later, FootprintOf, AppliedOursOf, PartitionOf, InTime, CompletedReady, Makes, Clear, Lids;
      ghost var h0, journal := c.Now(), c.journal;
      NothingYet(h0, c.quiet);
      ok := p.Await(b.after);
      WaitsInTime(c.me, order, journal, c.journal, p.from);
      ghost var h1 := c.Now();
      LaterOn(h0, h0, h1, c.quiet);
      if !ok {
        return;
      }
      NotYetStarted(order, |p.started|);
      ClearLess(p.started, p.completed, b.after, b.res.lid.base);
      ok := ApplyNext(b);
      LaterOn(h0, h1, c.Now(), c.quiet);
      if !ok {
        return;
      }
      BookedNext(order, p.started, old(applied), b);
      p.Enqueue(b);
    }

    /** The first step: the record, naming everything planned, before anything is applied. */
    method Begin() returns (wrote: bool)
      requires c.Logged()
      modifies c
      ensures c.Logged() && (old(c.Guaranteed()) ==> c.Guaranteed()) && Later(old(c.Now()), c.Now(), c.quiet) && c.View() == old(c.View())
      ensures c.journal == old(c.journal)
      ensures c.deletes == old(c.deletes) && c.cut == old(c.cut) && c.met == old(c.met) && c.removed == old(c.removed)
      ensures wrote ==> c.alive && Recorded(InProgress) && c.refusals == old(c.refusals)
      ensures !wrote ==> (c.record == old(c.record) || Recorded(InProgress)) && (old(c.alive) && c.alive ==> c.refusals > old(c.refusals))
    {
      wrote := c.WriteRecord(Record(InProgress, ResourcesOf(order), []));
    }

    /** Deploy.  At whatever point the process dies or anything fails, the objects of other
        stacks and all that was there before are untouched, no label ever changes hands, and every
        object this create made and has not removed again is named by the persisted record; and nothing
        was made before all that it depends on was ready.  On success every resource is applied and
        ready.  When nothing fails it succeeds exactly if every planned name is free.  A create that
        fails in a living process restores the cluster if its deletes succeed: what was there before
        plus the retained objects it made, the others removed newest first. */
    method Run() returns (r: Outcome)
      requires Valid() && Exact() && p.started == [] && applied == [] && p.broken == {} && c.alive && p.from == |c.journal|
      modifies this, c, p, p.waits
      ensures OnTime() && old(c.journal) <= c.journal
      ensures c.Guaranteed() && Footprint() && OwnersRespected(c.start, c.history) && Later(old(c.Now()), c.Now(), c.quiet)
      ensures c.record == old(c.record) || (c.record.Some? && c.record.value.resources == ResourcesOf(order) && c.record.value.pending == [])
      ensures c.View() == v0 || (c.record.Some? && c.record.value.resources == ResourcesOf(order))
      ensures Bookkeeping()
      ensures r.Created? ==> c.alive && Recorded(Complete) && p.started == order && p.completed == Lids(order) && AllReady(order, c.journal, p.from)
      ensures r.Created? ==> c.refusals == old(c.refusals)
      ensures r.Created? || r.Unrecorded? ==> c.View() == v0 + Makes(c.me, AppliedOf(order)) && NamesFree(c.me, v0, order)
      ensures r.NotRecorded? ==> c.View() == v0
      ensures r.Undone? && c.deletes == old(c.deletes) && c.cut == old(c.cut) ==>
                Restored() && c.removed == old(c.removed) + DoomedOrder(c.me, applied, true)
      ensures c.record != old(c.record) && c.record.value.status.RolledBack? ==>
                Restored() && c.removed == old(c.removed) + DoomedOrder(c.me, applied, true)
      ensures c.record.Some? && c.record != old(c.record) ==>
                && c.record.value.status in {InProgress, Complete, RolledBack, RollbackFailed}
                && (c.record.value.status.RollbackFailed? ==> c.deletes > old(c.deletes))
                && (c.record.value.status.Complete? ==> r.Created? || r.Unrecorded?)
                && (c.record.value.status.InProgress? ==> c.refusals > old(c.refusals) || c.crashes > old(c.crashes))
      ensures r.NotRecorded? || r.Unrecorded? ==> c.refusals > old(c.refusals) || c.crashes > old(c.crashes)
      ensures r.Died? ==> c.crashes > old(c.crashes)
      ensures Flawless(old(c.Now()), c.Now()) ==>
                && (r.Created? <==> NamesFree(c.me, v0, order) && (c.alone || c.met == old(c.met)))
                && (!r.Created? ==> r.Undone? && Recorded(RolledBack))
    {
      hide Tracks, ThingsAfter, KeepsToItsOwn, Accounted, Seen, Later, FootprintOf, AppliedOursOf, BookkeepingOf, PartitionOf, InTime, CompletedReady, Sound, OwnersRespected,
        Makes, NamesFree, AppliedOf, Lids;
      ghost var h0 := c.Now();
      NothingYet(h0, c.quiet);
      StartFacts(c.me, v0, order);
      var wrote := Begin();
      ghost var h := c.Now();
      LaterOn(h0, h0, h, c.quiet);
      if !wrote {
        c.HistoryRespected();
        return NotRecorded;
      }
      for n := 0 to |order|
        invariant Valid() && old(c.journal) <= c.journal && p.broken == {} && |p.started| == n && (c.alive ==> Exact())
        invariant Recorded(InProgress) && c.removed == old(c.removed)
        invariant Later(h0, c.Now(), c.quiet) && c.deletes == h0.deletes && c.cut == h0.cut && c.met == h0.met && c.refusals == h0.refusals
        invariant FreeUpto(c.me, v0, order, n)
      {
        h := c.Now();
        var ok := Provision(order[n]);
        LaterOn(h0, h, c.Now(), c.quiet);
        FreeNext(c.me, v0, order, n);
        if !ok {
          h := c.Now();
          var living := c.alive;
          Rollback();
          LaterOn(h0, h, c.Now(), c.quiet);
          c.HistoryRespected();
          return if living then Undone else Died;
        }
      }
      FreeAll(c.me, v0, order);
      AllStarted(order, p.started, applied);
      h := c.Now();
      r := Finish();
      LaterOn(h0, h, c.Now(), c.quiet);
      c.HistoryRespected();
    }

    /** The last waits, the stack's Outputs, and the final record. */
    method Finish() returns (r: Outcome)
      requires Valid() && p.broken == {} && p.started == order && (c.alive ==> Exact()) && Recorded(InProgress)
      modifies this, c, p, p.waits
      ensures c.Guaranteed() && Footprint() && Bookkeeping() && OnTime() && old(c.journal) <= c.journal
      ensures Later(old(c.Now()), c.Now(), c.quiet) && c.met == old(c.met)
      ensures c.record.Some? && c.record.value.resources == ResourcesOf(order) && c.record.value.pending == []
      ensures c.record.value.status in {InProgress, Complete, RolledBack, RollbackFailed}
      ensures c.record.value.status.RollbackFailed? ==> c.deletes > old(c.deletes)
      ensures c.record.value.status.Complete? ==> r.Created? || r.Unrecorded?
      ensures c.record.value.status.InProgress? ==> !old(c.alive) || c.refusals > old(c.refusals) || c.crashes > old(c.crashes)
      ensures r.Created? ==> c.alive && Recorded(Complete) && p.started == order && p.completed == Lids(order) && AllReady(order, c.journal, p.from)
      ensures r.Created? ==> c.refusals == old(c.refusals)
      ensures r.Created? || r.Unrecorded? ==> c.View() == v0 + Makes(c.me, AppliedOf(order))
      ensures !r.NotRecorded? && (r.Unrecorded? ==> c.refusals > old(c.refusals) || c.crashes > old(c.crashes))
      ensures r.Died? ==> !old(c.alive) || c.crashes > old(c.crashes)
      ensures (r.Undone? && c.deletes == old(c.deletes) && c.cut == old(c.cut)) || c.record.value.status.RolledBack? ==>
                Restored() && c.removed == old(c.removed) + DoomedOrder(c.me, applied, true)
      ensures Flawless(old(c.Now()), c.Now()) ==> r.Created?
    {
      hide Tracks, ThingsAfter, KeepsToItsOwn, Accounted, Seen, Later, FootprintOf, AppliedOursOf, PartitionOf, InTime, CompletedReady, Sound, Makes, AppliedOf, Lids;
      ghost var h0, journal := c.Now(), c.journal;
      NothingYet(h0, c.quiet);
      var ok := p.AwaitAll();
      WaitsInTime(c.me, order, journal, c.journal, p.from);
      if ok {
        CompleteIsReady(order, p.completed, c.journal, p.from);
      }
      ghost var h1 := c.Now();
      LaterOn(h0, h0, h1, c.quiet);
      if ok {
        ok := c.Wait();
      }
      ghost var h2 := c.Now();
      LaterOn(h0, h1, h2, c.quiet);
      if !ok {
        var living := c.alive;
        Rollback();
        LaterOn(h0, h2, c.Now(), c.quiet);
        return if living then Undone else Died;
      }
      ok := c.WriteRecord(Record(Complete, ResourcesOf(order), []));
      LaterOn(h0, h2, c.Now(), c.quiet);
      r := if ok then Created else Unrecorded;
    }
  }

  lemma AppliedSnoc(bs: seq<Built>, b: Built)
    ensures AppliedOf(bs + [b]) == AppliedOf(bs) + (if b.res.nature.SignalWait? then [] else [b.res])
  {
    assert (bs + [b])[..|bs + [b]| - 1] == bs;
  }

  lemma PlanLists(me: StackName, order: seq<Built>, n: nat)
    requires n < |order| && !order[n].res.nature.SignalWait?
    ensures IdentOf(me, order[n].res) in Idents(me, ResourcesOf(order))
    ensures Specified(me, ResourcesOf(order), IdentOf(me, order[n].res), Thing(Some(me), order[n].res.spec))
  {
    assert ResourcesOf(order)[n] == order[n].res;
  }

  lemma OwnedSeen(me: StackName, v0: Things, view: Things, applied: seq<Resource>, owned: set<Ident>)
    requires AppliedOursOf(me, v0, view, applied, owned)
    ensures forall id :: id in owned ==> id in view && Mine(me, view[id])
  {
  }

  lemma OwnedFresh(me: StackName, plan: seq<Resource>, v0: Things, view: Things, applied: seq<Resource>, owned: set<Ident>, id: Ident)
    requires FootprintOf(me, plan, v0, view) && AppliedOursOf(me, v0, view, applied, owned)
    requires id in owned || id !in view
    ensures id !in v0
  {
  }

  /** The thing of the next resource is not among what was made already. */
  lemma NotMadeYet(me: StackName, order: seq<Built>, started: seq<Built>, applied: seq<Resource>, owned: set<Ident>, v0: Things, view: Things, b: Built)
    requires Deployment.Sound(me, order) && BookkeepingOf(order, started, applied) && AppliedOursOf(me, v0, view, applied, owned)
    requires |started| < |order| && b == order[|started|] && !b.res.nature.SignalWait?
    ensures IdentOf(me, b.res) !in owned
    ensures view == v0 + Makes(me, applied) && IdentOf(me, b.res) in view ==> IdentOf(me, b.res) in v0
  {
    var id, n := IdentOf(me, b.res), |started|;
    assert ResourcesOf(order)[n] == b.res;
    forall i | 0 <= i < |applied| ensures IdentOf(me, applied[i]) != id {
      AppliedMembers(started, applied[i]);
      var k :| 0 <= k < |started| && started[k].res == applied[i];
      assert started[k] == order[k] && ResourcesOf(order)[k] == applied[i];
    }
    MakesHas(me, applied, id);
  }

  lemma BookedNext(order: seq<Built>, started: seq<Built>, applied: seq<Resource>, b: Built)
    requires BookkeepingOf(order, started, applied) && |started| < |order| && b == order[|started|]
    ensures BookkeepingOf(order, started + [b], if b.res.nature.SignalWait? then applied else applied + [b.res])
  {
    AppliedSnoc(started, b);
    assert order[..|started| + 1] == started + [b];
  }

  lemma NotYetStarted(order: seq<Built>, n: nat)
    requires DistinctLids(order) && n < |order|
    ensures order[n].res.lid !in Lids(order[..n])
  {
    FreshLid(order, n);
  }

  /** No planned name is taken, by another or by a leftover of this stack's name. */
  ghost predicate NamesFree(me: StackName, v0: Things, order: seq<Built>) {
    FreeUpto(me, v0, order, |order|)
  }

  ghost predicate FreeUpto(me: StackName, v0: Things, order: seq<Built>, n: nat) {
    forall i :: 0 <= i < n && i < |order| && !order[i].res.nature.SignalWait? ==> IdentOf(me, order[i].res) !in v0
  }

  lemma FreeNext(me: StackName, v0: Things, order: seq<Built>, n: nat)
    requires n < |order| && FreeUpto(me, v0, order, n)
    ensures order[n].res.nature.SignalWait? || IdentOf(me, order[n].res) !in v0 ==> FreeUpto(me, v0, order, n + 1)
    ensures !order[n].res.nature.SignalWait? && IdentOf(me, order[n].res) in v0 ==> !NamesFree(me, v0, order)
  {
  }

  lemma FreeAll(me: StackName, v0: Things, order: seq<Built>)
    ensures FreeUpto(me, v0, order, |order|) <==> NamesFree(me, v0, order)
  {
  }

  lemma StartFacts(me: StackName, v0: Things, order: seq<Built>)
    ensures v0 + Makes(me, []) == v0 && FreeUpto(me, v0, order, 0)
  {
  }

  lemma FootprintShrinks(v0: Things, before: Things, after: Things, me: StackName, applied: seq<Resource>, plan: seq<Resource>)
    requires FootprintOf(me, plan, v0, before)
    requires forall id :: id in after ==> id in before && after[id] == before[id]
    requires forall id :: id in before && id !in Doomed(me, applied, true) ==> id in after
    requires forall id :: id in Doomed(me, applied, true) ==> id !in v0
    ensures FootprintOf(me, plan, v0, after)
    ensures before == v0 + Makes(me, applied) ==>
              before - Doomed(me, applied, true) == v0 + (Makes(me, applied) - Doomed(me, applied, true))
  {
  }

  lemma NextInTime(me: StackName, order: seq<Built>, started: seq<Built>, applied: seq<Resource>, completed: set<LogicalId>,
                   journal: seq<Note>, from: nat, b: Built)
    requires Deployment.Sound(me, order) && BookkeepingOf(order, started, applied) && |started| < |order| && b == order[|started|]
    requires Clear(started, completed, b.after - {b.res.lid.base}) && CompletedReady(completed, journal, from)
    requires InTime(me, order, journal, from)
    ensures InTime(me, order, journal + [Made(IdentOf(me, b.res))], from)
  {
    assert started + [b] == order[..|started| + 1];
    assert Orderly(me, order) by {
      forall i, j | 0 <= i < j < |order| ensures IdentOf(me, order[i].res) != IdentOf(me, order[j].res) {
        assert ResourcesOf(order)[i] == order[i].res && ResourcesOf(order)[j] == order[j].res;
      }
    }
    hide Orderly, InTime;
    MadeInTime(me, order, started, completed, journal, from, b);
  }

  lemma AllStarted(order: seq<Built>, started: seq<Built>, applied: seq<Resource>)
    requires BookkeepingOf(order, started, applied) && |started| == |order|
    ensures started == order && applied == AppliedOf(order)
  {
    assert order[..|order|] == order;
  }

  /** The objects of the first `n` are in `m`, as specified. */
  ghost predicate ThereUpto(me: StackName, order: seq<Built>, n: nat, m: Things) {
    forall j :: 0 <= j < n && j < |order| && order[j].res.nature.Object? ==>
      IdentOf(me, order[j].res) in m && m[IdentOf(me, order[j].res)] == Thing(Some(me), order[j].res.spec)
  }

  lemma {:induction false} AppliedThere(me: StackName, order: seq<Built>, n: nat)
    requires Deployment.Sound(me, order) && n <= |order|
    ensures ThereUpto(me, order, n, Makes(me, AppliedOf(order[..n])))
  {
    hide Makes, AppliedOf, Deployment.Sound;
    if n > 0 {
      hide ThereUpto;
      AppliedThere(me, order, n - 1);
      var b := order[n - 1];
      assert order[..n] == order[..n - 1] + [b];
      AppliedSnoc(order[..n - 1], b);
      MakesSnoc(me, AppliedOf(order[..n - 1]), b.res);
      var past, applied := AppliedOf(order[..n - 1]), AppliedOf(order[..n]);
      assert past + [] == past;
      assert Makes(me, applied) == if b.res.nature.SignalWait? then Makes(me, past) else Makes(me, past)[IdentOf(me, b.res) := Thing(Some(me), b.res.spec)];
      ThereNext(me, order, n, Makes(me, past));
    }
  }

  lemma ThereNext(me: StackName, order: seq<Built>, n: nat, m: Things)
    requires Deployment.Sound(me, order) && 0 < n <= |order| && ThereUpto(me, order, n - 1, m)
    ensures var r := order[n - 1].res;
            ThereUpto(me, order, n, if r.nature.SignalWait? then m else m[IdentOf(me, r) := Thing(Some(me), r.spec)])
  {
    forall j | 0 <= j < n - 1 ensures IdentOf(me, order[j].res) != IdentOf(me, order[n - 1].res) {
      assert ResourcesOf(order)[j] == order[j].res && ResourcesOf(order)[n - 1] == order[n - 1].res;
    }
  }
}
