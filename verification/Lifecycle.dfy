/** Whole lives of a stack: an interrupted create and its recovery, a completed stack and its
    delete, and the ways a record can fall short of, or go beyond, what the stack made. */
module Lifecycle {
  import opened Wrappers
  import opened Stack
  import opened History
  import opened Cluster
  import opened Ownership
  import opened Teardown
  import opened Readiness
  import opened Timing
  import opened Settling
  import opened Recover
  import opened Deploy
  import Interleaved

  ghost predicate Planned(me: StackName, order: seq<Built>, id: Ident) {
    exists i :: 0 <= i < |order| && IdentOf(me, order[i].res) == id
  }

  ghost predicate PlannedKept(me: StackName, order: seq<Built>, id: Ident, rollback: bool) {
    exists i :: 0 <= i < |order| && IdentOf(me, order[i].res) == id &&
      (order[i].res.policy == Retain || (order[i].res.policy == RetainExceptOnCreate && !rollback))
  }

  /** No planned name is held by an object that already carries this stack's label: one a
      stack of the same name retained earlier. */
  ghost predicate NoLeftovers(me: StackName, v0: Things, order: seq<Built>) {
    forall id :: id in v0 && Planned(me, order, id) ==> !Mine(me, v0[id])
  }

  lemma PlanCoherent(me: StackName, order: seq<Built>, rec: Record)
    requires Deployment.Sound(me, order) && rec.resources == ResourcesOf(order) && rec.pending == []
    ensures Coherent(me, rec)
    ensures forall r :: r in Listed(me, rec) ==> exists i :: 0 <= i < |order| && order[i].res == r
    ensures forall i :: 0 <= i < |order| ==> order[i].res in Listed(me, rec)
  {
    var rs := ResourcesOf(order);
    assert rs + [] == rs;
    UnionIsFaithful(me, rs, {});
    forall r | r in rs
      ensures exists i :: 0 <= i < |order| && order[i].res == r
    {
      var i :| 0 <= i < |rs| && rs[i] == r;
      assert order[i].res == r;
    }
    forall i | 0 <= i < |order|
      ensures order[i].res in Listed(me, rec)
    {
      var list := Listed(me, rec);
      assert rs[i] == order[i].res && Names(me, rs, IdentOf(me, rs[i]));
      assert Names(me, list, IdentOf(me, rs[i]));
      var k :| 0 <= k < |list| && IdentOf(me, list[k]) == IdentOf(me, rs[i]);
      assert list[k] in rs;
      var j :| 0 <= j < |rs| && rs[j] == list[k];
    }
  }

  lemma PlanDoomed(me: StackName, order: seq<Built>, rec: Record, id: Ident)
    requires Deployment.Sound(me, order) && rec.resources == ResourcesOf(order) && rec.pending == []
    requires id in Doomed(me, Listed(me, rec), true)
    ensures Planned(me, order, id)
  {
    PlanCoherent(me, order, rec);
    var list := Listed(me, rec);
    var k :| 0 <= k < |list| && !Kept(list[k], true) && !list[k].nature.SignalWait? && IdentOf(me, list[k]) == id;
    assert list[k] in list;
  }

  /** After recovery of an interrupted create: what was there is there, and what is new is kept. */
  lemma RecoveredIsClean(me: StackName, order: seq<Built>, rec: Record, v0: Things, v1: Things, v2: Things)
    requires Deployment.Sound(me, order) && rec.resources == ResourcesOf(order) && rec.pending == []
    requires FootprintOf(me, ResourcesOf(order), v0, v1)
    requires ShrinksBy(v1, v2, Doomed(me, Listed(me, rec), true)) && SparesOthers(me, v1, v2) && RolledBackOf(me, v2, rec)
    ensures NoLeftovers(me, v0, order) ==> forall id :: id in v0 ==> id in v2 && v2[id] == v0[id]
    ensures forall id :: id in v2 && id !in v0 ==> PlannedKept(me, order, id, true)
  {
    hide Deployment.Sound, Union, RolledBackOf;
    if NoLeftovers(me, v0, order) {
      forall id | id in v0
        ensures id in v2
      {
        if id in Doomed(me, Listed(me, rec), true) {
          PlanDoomed(me, order, rec, id);
        }
      }
    }
    forall id | id in v2 && id !in v0
      ensures PlannedKept(me, order, id, true)
    {
      NewIsKept(me, order, rec, v2, id);
    }
  }

  lemma NewIsKept(me: StackName, order: seq<Built>, rec: Record, view: Things, id: Ident)
    requires Deployment.Sound(me, order) && rec.resources == ResourcesOf(order) && rec.pending == []
    requires RolledBackOf(me, view, rec) && id in view && Mine(me, view[id]) && id in Idents(me, ResourcesOf(order))
    ensures PlannedKept(me, order, id, true)
  {
    PlanCoherent(me, order, rec);
    hide Union;
    var rs := ResourcesOf(order);
    var i :| 0 <= i < |rs| && !rs[i].nature.SignalWait? && IdentOf(me, rs[i]) == id;
    assert order[i].res == rs[i] && order[i].res in Listed(me, rec);
    assert Tracked(rs[i]);
  }

  /** Nothing was refused, and recovery was tried once more than the process died. */
  ghost predicate TriedEnough(h0: Health, h1: Health, attempts: nat) {
    h1.refusals == h0.refusals && h1.deletes == h0.deletes && attempts > h1.crashes - h0.crashes
  }

  /** What was there is there, and what is new is planned and kept on rollback. */
  ghost predicate Clean(me: StackName, order: seq<Built>, v0: Things, view: Things) {
    && (forall id :: id in v0 ==> id in view && view[id] == v0[id])
    && (forall id :: id in view && id !in v0 ==> PlannedKept(me, order, id, true))
  }

  /** A create rolled back by its own process is clean. */
  lemma RestoredIsClean(me: StackName, order: seq<Built>, started: seq<Built>, applied: seq<Resource>, v0: Things, view: Things)
    requires Deployment.Sound(me, order) && BookkeepingOf(order, started, applied) && FootprintOf(me, ResourcesOf(order), v0, view)
    ensures view == v0 + (Makes(me, applied) - Doomed(me, applied, true)) ==> Clean(me, order, v0, view)
  {
    if view == v0 + (Makes(me, applied) - Doomed(me, applied, true)) {
      hide Makes, Doomed, AppliedOf, PlannedKept, Deployment.Sound;
      forall id | id in view && id !in v0 ensures PlannedKept(me, order, id, true) {
        MadeAndKept(me, order, started, applied, id);
      }
    }
  }

  lemma MadeAndKept(me: StackName, order: seq<Built>, started: seq<Built>, applied: seq<Resource>, id: Ident)
    requires BookkeepingOf(order, started, applied) && id in Makes(me, applied) && id !in Doomed(me, applied, true)
    ensures PlannedKept(me, order, id, true)
  {
    MakesHas(me, applied, id);
    hide Makes;
    var i :| 0 <= i < |applied| && IdentOf(me, applied[i]) == id;
    AppliedMembers(started, applied[i]);
    hide AppliedOf;
    var k :| 0 <= k < |started| && started[k].res == applied[i];
    assert order[k] == started[k];
  }

  lemma CleanIs(me: StackName, order: seq<Built>, v0: Things, view: Things)
    requires NoLeftovers(me, v0, order) ==> forall id :: id in v0 ==> id in view && view[id] == v0[id]
    requires forall id :: id in view && id !in v0 ==> PlannedKept(me, order, id, true)
    ensures NoLeftovers(me, v0, order) ==> Clean(me, order, v0, view)
  {
  }

  lemma FootprintLogical(me: StackName, order: seq<Built>, v0: Things, view: Things)
    requires FootprintOf(me, ResourcesOf(order), v0, view) && LogicalMine(me, v0)
    ensures LogicalMine(me, view)
  {
  }

  /** A create that may die anywhere, followed by recovery that may die anywhere and is run again
      any number of times.  With nothing refused and one attempt more than the process dies, the
      stack ends complete or rolled back, unless it died before its first record; it ends complete when
      nothing fails and the names are free.  Rolled back, in process or by recovery, the cluster holds
      exactly what it held before, plus only planned resources with a Retain policy, unless a planned
      name was a leftover of an earlier stack of the same name.  Other stacks' objects are never touched,
      and no label changes hands. */
  method CreateThenRecover(c: Cluster, order: seq<Built>, attempts: nat) returns (created: Outcome)
    requires Deployment.Sound(c.me, order) && c.Guaranteed() && c.record.None? && LogicalMine(c.me, c.View()) && c.alive
    modifies c
    ensures c.Guaranteed() && OwnersRespected(c.start, c.history)
    ensures TriedEnough(old(c.Now()), c.Now(), attempts) ==>
              || (c.record.None? && c.View() == old(c.View()) && c.crashes > old(c.crashes))
              || (c.record.Some? && c.record.value.status in {Complete, RolledBack})
    ensures created.Created? ==> c.record.Some? && c.record.value.status.Complete?
    ensures Flawless(old(c.Now()), c.Now()) && NamesFree(c.me, old(c.View()), order) && (c.alone || c.met == old(c.met)) ==> created.Created?
    ensures c.record.Some? && c.record.value.status.Complete? ==> c.View() == old(c.View()) + Makes(c.me, AppliedOf(order))
    ensures AsSpecified(c.me, ResourcesOf(order), old(c.View()), c.View())
    ensures c.record.Some? && c.record.value.status.RolledBack? && NoLeftovers(c.me, old(c.View()), order) ==> Clean(c.me, order, old(c.View()), c.View())
  {
    hide Tracks, ThingsAfter, KeepsToItsOwn, Accounted, Seen, Later, OwnersRespected, Clean, Makes, AppliedOf, Doomed, NoLeftovers, AsSpecified;
    ghost var v0, h0 := c.View(), c.Now();
    var d := new Deployment(c, order);
    created := d.Run();
    ghost var v1, h1 := c.View(), c.Now();
    NothingYet(h0, c.quiet);
    LaterOn(h0, h0, h1, c.quiet);
    RestoredIsClean(c.me, order, d.p.started, d.applied, v0, v1);
    if c.record.Some? && CreateUnsettled(c.record.value) {
      ghost var rec := c.record.value;
      PlanCoherent(c.me, order, rec);
      FootprintLogical(c.me, order, v0, v1);
      var recovered := RecoverRepeatedly(c, attempts);
      SpecifiedShrinks(c.me, ResourcesOf(order), v0, v1, c.View());
      if recovered {
        RecoveredIsClean(c.me, order, rec, v0, v1, c.View());
        CleanIs(c.me, order, v0, c.View());
      }
    }
  }

  /** The exception is real: when a planned name is held by an object an earlier stack of the name
      retained, the create has only to write its record and die, and recovery, in which nothing goes
      wrong, removes the object, although the create never touched it. */
  method LeftoverIsTaken(c: Cluster, b: Built)
    requires b.res.nature.Object? && b.res.policy.Delete? && Deployment.Sound(c.me, [b])
    requires c.Guaranteed() && c.record.None? && LogicalMine(c.me, c.View()) && c.alive && c.quiet
    requires HasMine(c.me, c.View(), b.res)
    modifies c
    ensures c.record.Some? && c.record.value.status.RolledBack?
    ensures IdentOf(c.me, b.res) !in c.View() && forall id :: id in old(c.View()) && id != IdentOf(c.me, b.res) ==> id in c.View()
  {
    hide Tracks, ThingsAfter, KeepsToItsOwn, Accounted, Seen;
    ghost var v0 := c.View();
    var d := new Deployment(c, [b]);
    var wrote := d.Begin();
    c.Crash();
    ghost var rec := c.record.value;
    PlanCoherent(c.me, [b], rec);
    assert d.order[0] == b && [b][0].res in Listed(c.me, rec);
    DoomedOne(c.me, b, rec);
    var recovered := RecoverRepeatedly(c, 1);
  }

  lemma DoomedOne(me: StackName, b: Built, rec: Record)
    requires rec.resources == ResourcesOf([b]) && rec.pending == [] && b.res.policy.Delete? && b.res.nature.Object?
    ensures Doomed(me, Listed(me, rec), true) == {IdentOf(me, b.res)}
    ensures Doomed(me, rec.resources, false) == {IdentOf(me, b.res)} && Doomed(me, rec.pending, false) == {}
  {
    var rs := ResourcesOf([b]);
    assert rs == [b.res] && rs + [] == rs && rs[1..] == [];
    assert Union(me, rs, {}) == [b.res] + Union(me, [], {IdentOf(me, b.res)});
    assert Listed(me, rec) == [b.res];
    assert [b.res][0] == b.res;
  }

  lemma CompleteIsOurs(me: StackName, order: seq<Built>, v0: Things, view: Things)
    requires Deployment.Sound(me, order) && view == v0 + Makes(me, AppliedOf(order))
    ensures AllOurs(me, view, ResourcesOf(order), false)
  {
    var rs := ResourcesOf(order);
    forall i | 0 <= i < |rs| && rs[i].nature.Object?
      ensures IdentOf(me, rs[i]) in view && Mine(me, view[IdentOf(me, rs[i])])
    {
      AppliedMembers(order, rs[i]);
      assert order[i].res == rs[i];
      var k :| 0 <= k < |AppliedOf(order)| && AppliedOf(order)[k] == rs[i];
      MakesHas(me, AppliedOf(order), IdentOf(me, rs[i]));
    }
  }

  /** Objects whose deletion policy is Retain or RetainExceptOnCreate are there as specified. */
  ghost predicate RetainedAsMade(me: StackName, order: seq<Built>, view: Things) {
    forall i :: 0 <= i < |order| && order[i].res.nature.Object? && order[i].res.policy != Delete ==>
      IdentOf(me, order[i].res) in view && view[IdentOf(me, order[i].res)] == Thing(Some(me), order[i].res.spec)
  }

  lemma StillAsMade(me: StackName, order: seq<Built>, v0: Things, v1: Things, v2: Things)
    requires Deployment.Sound(me, order) && v1 == v0 + Makes(me, AppliedOf(order))
    requires RetainedStay(me, ResourcesOf(order) + [], v1, v2, false)
    ensures RetainedAsMade(me, order, v2)
  {
    AppliedThere(me, order, |order|);
    assert order[..|order|] == order && ResourcesOf(order) + [] == ResourcesOf(order);
    var rs := ResourcesOf(order);
    forall i | 0 <= i < |order| && order[i].res.nature.Object? && order[i].res.policy != Delete
      ensures KeepsAll(me, rs, IdentOf(me, order[i].res), false)
    {
      forall k | 0 <= k < |rs| && IdentOf(me, rs[k]) == IdentOf(me, rs[i]) ensures k == i {
      }
    }
  }

  lemma DeletedGone(me: StackName, order: seq<Built>, view: Things)
    requires Deployment.Sound(me, order) && AllDropped(me, Record(Complete, ResourcesOf(order), []), view)
    ensures forall i :: 0 <= i < |order| && order[i].res.nature.Object? && order[i].res.policy == Delete ==> IdentOf(me, order[i].res) !in view
  {
    var rs := ResourcesOf(order);
    forall i | 0 <= i < |order| && order[i].res.nature.Object? && order[i].res.policy == Delete ensures IdentOf(me, order[i].res) !in view {
      assert rs[i] == order[i].res;
      forall k | 0 <= k < |rs| && IdentOf(me, rs[k]) == IdentOf(me, rs[i]) ensures k == i {
      }
      assert DropsAll(me, rs, IdentOf(me, rs[i]), false);
    }
  }

  /** A stack whose create completed can be deleted by name: only its own objects go.  When nothing
      fails and the planned names are free both complete, and what is left is what was there and the
      retained objects. */
  method CreateThenDestroy(c: Cluster, order: seq<Built>, protected: bool) returns (created: Outcome, destroyed: bool)
    requires Deployment.Sound(c.me, order) && c.Guaranteed() && LogicalMine(c.me, c.View()) && c.alive
    modifies c
    ensures c.Guaranteed() && OwnersRespected(c.start, c.history)
    ensures destroyed ==> created.Created? && !protected
    ensures destroyed ==>
              forall id :: id in c.View() && id !in old(c.View()) ==> PlannedKept(c.me, order, id, false)
    ensures Flawless(old(c.Now()), c.Now()) && NamesFree(c.me, old(c.View()), order) && (c.alone || c.met == old(c.met)) && !protected ==>
              && destroyed && c.record.None?
              && c.View() == old(c.View()) + (Makes(c.me, AppliedOf(order)) - Doomed(c.me, ResourcesOf(order), false))
    ensures created.Created? ==> RetainedAsMade(c.me, order, c.View())
    ensures Flawless(old(c.Now()), c.Now()) && NamesFree(c.me, old(c.View()), order) && (c.alone || c.met == old(c.met)) && !protected ==>
              forall i :: 0 <= i < |order| && order[i].res.nature.Object? && order[i].res.policy == Delete ==> IdentOf(c.me, order[i].res) !in c.View()
  {
    hide Tracks, ThingsAfter, KeepsToItsOwn, Accounted, Seen, Later, OwnersRespected, Makes, AppliedOf, Doomed, NamesFree, Destroyed, PlannedKept, RetainedStay, RetainedAsMade, AllDropped;
    ghost var v0, h0 := c.View(), c.Now();
    var d := new Deployment(c, order);
    created := d.Run();
    ghost var v1, h1 := c.View(), c.Now();
    NothingYet(h0, c.quiet);
    LaterOn(h0, h0, h1, c.quiet);
    destroyed := false;
    if created.Created? {
      CompleteIsOurs(c.me, order, v0, v1);
      FootprintLogical(c.me, order, v0, v1);
      NothingPending(c.me, v1, ResourcesOf(order));
      NoneDoomedBefore(c.me, v0, order);
      destroyed := Destroy(c, protected);
      LaterOn(h0, h1, c.Now(), c.quiet);
      StillAsMade(c.me, order, v0, v1, c.View());
      if AllDropped(c.me, Record(Complete, ResourcesOf(order), []), c.View()) {
        DeletedGone(c.me, order, c.View());
      }
      if destroyed {
        DestroyedLeaves(c.me, order, v0, v1, c.View());
      }
      c.HistoryRespected();
    }
  }

  lemma NothingPending(me: StackName, view: Things, rs: seq<Resource>)
    ensures Doomed(me, [], false) == {} && Destroyed(me, view, Record(Complete, rs, [])) == view - Doomed(me, rs, false)
  {
  }

  lemma NoneDoomedBefore(me: StackName, v0: Things, order: seq<Built>)
    requires NamesFree(me, v0, order)
    ensures Doomed(me, ResourcesOf(order), false) !! v0.Keys
    ensures v0 + Makes(me, AppliedOf(order)) - Doomed(me, ResourcesOf(order), false)
         == v0 + (Makes(me, AppliedOf(order)) - Doomed(me, ResourcesOf(order), false))
  {
    hide Makes;
  }

  lemma DestroyedLeaves(me: StackName, order: seq<Built>, v0: Things, v1: Things, v2: Things)
    requires Deployment.Sound(me, order) && FootprintOf(me, ResourcesOf(order), v0, v1)
    requires forall id :: id in v2 ==> id in v1
    requires forall r :: r in ResourcesOf(order) && Tracked(r) && r.policy.Delete? ==> IdentOf(me, r) !in v2
    ensures forall id :: id in v2 && id !in v0 ==> PlannedKept(me, order, id, false)
  {
    forall id | id in v2 && id !in v0
      ensures PlannedKept(me, order, id, false)
    {
      var rs := ResourcesOf(order);
      var i :| 0 <= i < |rs| && !rs[i].nature.SignalWait? && IdentOf(me, rs[i]) == id;
      assert rs[i] in rs && Tracked(rs[i]) && order[i].res == rs[i];
    }
  }

  /** A rolled-back create is another matter: its record still lists every planned name.  If one
      of them is another stack's object, the create refuses it and leaves it alone, and ends rolled
      back; but deleting the rolled-back stack, with nothing going wrong, removes it. */
  method DestroyAfterRollbackTakesOthers(c: Cluster, b: Built)
    requires c.alone && c.quiet && c.alive && b.res.nature.Object? && b.res.policy.Delete? && Deployment.Sound(c.me, [b])
    requires c.Guaranteed() && LogicalMine(c.me, c.View()) && c.record.None?
    requires IdentOf(c.me, b.res) in c.things && !Mine(c.me, c.things[IdentOf(c.me, b.res)])
    modifies c
    ensures c.record.None? && IdentOf(c.me, b.res) !in c.things
  {
    hide Tracks, ThingsAfter, KeepsToItsOwn, Accounted;
    ghost var v0 := c.View();
    var id := IdentOf(c.me, b.res);
    var d := new Deployment(c, [b]);
    var created := d.Run();
    assert [b][0] == b && !NamesFree(c.me, v0, [b]);
    assert c.View()[id] == v0[id];
    var rs := c.record.value.resources;
    assert rs == ResourcesOf([b]) && rs[0] == b.res;
    FootprintLogical(c.me, [b], v0, c.View());
    var destroyed := Destroy(c, false);
    assert rs[0] in rs && Tracked(b.res);
  }

  // ---------------------------------------------------------------- the interleaved create

  /** Two entries for one thing agree on what kind of thing it is: logical ids are unique in a template. */
  ghost predicate CoherentPlan(me: StackName, plan: set<Resource>) {
    forall r, r' :: r in plan && r' in plan && IdentOf(me, r) == IdentOf(me, r') ==> r.nature == r'.nature
  }

  ghost predicate PlanNames(me: StackName, plan: set<Resource>, id: Ident) {
    exists r :: r in plan && IdentOf(me, r) == id
  }

  /** A planned resource that a rollback keeps, or one torn down through a hook without a guarantee. */
  ghost predicate MaySurvive(me: StackName, plan: set<Resource>, id: Ident) {
    exists r :: r in plan && IdentOf(me, r) == id && (r.policy.Retain? || r.nature.CustomResource? || r.nature.RestApi?)
  }

  /** All that was there is there, unless it is a leftover under a planned name; and of what is new
      only what may survive. */
  ghost predicate CleanPlan(me: StackName, plan: set<Resource>, v0: Things, view: Things) {
    && (forall id :: id in v0 && !(Mine(me, v0[id]) && PlanNames(me, plan, id)) ==> id in view && view[id] == v0[id])
    && (forall id :: id in view && id !in v0 ==> MaySurvive(me, plan, id))
  }

  lemma RecordFromPlan(me: StackName, plan: set<Resource>, rec: Record, resources: seq<Resource>)
    requires Interleaved.FromPlan(plan, Some(rec), resources) && CoherentPlan(me, plan)
    ensures Coherent(me, rec)
    ensures forall r :: r in Listed(me, rec) ==> r in plan && r in rec.resources + rec.pending
  {
    forall r | r in rec.resources + rec.pending ensures r in plan {
      assert r in Interleaved.Members(rec.resources) || r in Interleaved.Members(rec.pending);
    }
    UnionIsFaithful(me, rec.resources + rec.pending, {});
  }

  lemma InterleavedIsClean(me: StackName, plan: set<Resource>, rec: Record, resources: seq<Resource>, v0: Things, v1: Things, v2: Things)
    requires Interleaved.FromPlan(plan, Some(rec), resources) && CoherentPlan(me, plan)
    requires Interleaved.Untouched(me, v0, v1) && Interleaved.New(v0, v1) <= Interleaved.RecordIdents(me, Some(rec))
    requires ShrinksBy(v1, v2, Doomed(me, Listed(me, rec), true)) && SparesOthers(me, v1, v2) && RolledBackOf(me, v2, rec)
    ensures CleanPlan(me, plan, v0, v2)
  {
    RecordFromPlan(me, plan, rec, resources);
    var list := Listed(me, rec);
    forall id | id in v0 && Mine(me, v0[id]) && !PlanNames(me, plan, id) ensures id in v2 {
      forall k | 0 <= k < |list| ensures IdentOf(me, list[k]) != id {
        assert list[k] in list;
      }
    }
    hide Listed, Coherent;
    forall id | id in v2 && id !in v0 ensures MaySurvive(me, plan, id) {
      assert id in Interleaved.New(v0, v1);
      var r := ListedFor(me, rec, id);
      assert r in list;
    }
  }

  /** A thing the record names has an entry of its own kind in the rollback list. */
  lemma ListedFor(me: StackName, rec: Record, id: Ident) returns (r: Resource)
    requires id in Interleaved.RecordIdents(me, Some(rec)) && Coherent(me, rec)
    ensures r in Listed(me, rec) && IdentOf(me, r) == id && !r.nature.SignalWait?
  {
    var all := rec.resources + rec.pending;
    UnionIsFaithful(me, all, {});
    var named: Resource;
    if id in Idents(me, rec.resources) {
      var i :| 0 <= i < |rec.resources| && !rec.resources[i].nature.SignalWait? && IdentOf(me, rec.resources[i]) == id;
      named := rec.resources[i];
      assert all[i] == named;
    } else {
      var i :| 0 <= i < |rec.pending| && !rec.pending[i].nature.SignalWait? && IdentOf(me, rec.pending[i]) == id;
      named := rec.pending[i];
      assert all[|rec.resources| + i] == named;
    }
    assert Names(me, all, id);
    var list := Listed(me, rec);
    assert Names(me, list, id);
    var k :| 0 <= k < |list| && IdentOf(me, list[k]) == id;
    r := list[k];
    assert r in list && r in all && named in all;
  }

  lemma UntouchedLogical(me: StackName, v0: Things, view: Things)
    requires Interleaved.Untouched(me, v0, view)
    ensures LogicalMine(me, view)
  {
  }

  /** What a rollback keeps on purpose is planned. */
  lemma KeptIsPlanned(me: StackName, plan: set<Resource>, rs: seq<Resource>, id: Ident)
    requires Interleaved.Members(rs) <= plan && id in Interleaved.KeptIdents(me, rs)
    ensures MaySurvive(me, plan, id)
  {
    var i :| 0 <= i < |rs| && !rs[i].nature.SignalWait? && IdentOf(me, rs[i]) == id;
    assert rs[i] in Interleaved.Members(rs);
    assert !KeptOnRollback(rs[i]) ==> id in Doomed(me, rs, true);
  }

  /** The interleaved create, which may die anywhere, followed by recovery that may die anywhere and is run
      again any number of times.  With nothing refused and one attempt more than the process dies, the
      stack ends complete or rolled back, unless it died before its first record; it ends complete when
      nothing fails and everything can be made.  Rolled back, in process or by recovery, everything that was there
      is there, unless it is a leftover of an earlier stack of the name under a planned name; and what is new
      is a planned resource that a rollback keeps or that is torn down through a hook without a guarantee,
      or the thing of a hook that failed. */
  method InterleavedThenRecover(c: Cluster, items: seq<Interleaved.Item>, ghost plan: set<Resource>, attempts: nat)
    returns (created: Outcome, ghost failing: Option<Resource>)
    requires Interleaved.SoundPlan(c.me, items) && CoherentPlan(c.me, plan)
    requires forall i :: 0 <= i < |items| ==> Interleaved.Members(Interleaved.Parts(items[i])) <= plan
    requires c.Guaranteed() && c.alive && c.record.None? && LogicalMine(c.me, c.View())
    requires forall i :: 0 <= i < |items| ==> Interleaved.HookFree(c.me, c.View(), items[i])
    modifies c
    ensures c.Guaranteed() && OwnersRespected(c.start, c.history)
    ensures TriedEnough(old(c.Now()), c.Now(), attempts) ==>
              || (c.record.None? && c.View() == old(c.View()) && c.crashes > old(c.crashes))
              || (c.record.Some? && c.record.value.status in {Complete, RolledBack})
    ensures created.Created? ==> c.record.Some? && c.record.value.status.Complete?
    ensures Flawless(old(c.Now()), c.Now()) && Interleaved.AllMakeable(c.me, old(c.View()), items, |items|) && (c.alone || c.met == old(c.met)) ==>
              created.Created? && Interleaved.New(old(c.View()), c.View()) == Idents(c.me, Interleaved.AllParts(items, |items|))
    ensures created.Created? ==> AllAsSpecified(c.me, ResourcesOf(Interleaved.AllBuilts(items, |items|)), c.View())
    ensures AsSpecified(c.me, ResourcesOf(Interleaved.AllBuilts(items, |items|)), old(c.View()), c.View())
    ensures c.record.Some? && c.record.value.status.RolledBack? ==>
              CleanPlan(c.me, plan, old(c.View()), c.View() - Interleaved.Stray(c.me, failing))
    ensures failing.Some? ==> c.refusals > old(c.refusals) && exists n :: 0 <= n < |items| && items[n].make == Interleaved.Hook(failing.value)
  {
    hide Tracks, ThingsAfter, KeepsToItsOwn, Accounted, Seen, Later, OwnersRespected, Interleaved.RecordIdents, Interleaved.FromPlan, Coherent, Listed,
      CoherentPlan, Interleaved.SoundPlan, Interleaved.LeftOver, CleanPlan, Doomed, Interleaved.Untouched, InTime,
      Interleaved.AllMakeable, Interleaved.AllParts, Interleaved.AllBuilts, Interleaved.AllSturdy, Idents, AsSpecified, AllAsSpecified;
    ghost var v0, h0 := c.View(), c.Now();
    var run := new Interleaved.Creation(c, items, plan);
    created := run.Run();
    ghost var v1, h1 := c.View(), c.Now();
    ghost var q := c.quiet && Interleaved.AllSturdy(c.me, items, c.broken, |items|);
    NothingYet(h0, q);
    LaterOn(h0, h0, h1, q);
    failing := None;
    HooksBelong(c.me, items);
    if c.record.Some? {
      ghost var rec := c.record.value;
      if CreateUnsettled(c.record.value) {
        Recoverable(c.me, plan, rec, run.resources, v0, v1);
        var recovered := RecoverRepeatedly(c, attempts);
        SpecifiedShrinks(c.me, ResourcesOf(Interleaved.AllBuilts(items, |items|)), v0, v1, c.View());
        if recovered {
          InterleavedIsClean(c.me, plan, rec, run.resources, v0, v1, c.View());
          assert c.View() - Interleaved.Stray(c.me, failing) == c.View();
        }
      } else if c.record.value.status.RolledBack? {
        failing := run.failing;
        SettledIsClean(c.me, plan, v0, v1, run.B());
      }
    }
  }

  lemma HooksBelong(me: StackName, items: seq<Interleaved.Item>)
    requires Interleaved.SoundPlan(me, items)
    ensures forall n :: 0 <= n < |items| && items[n].make.Hook? ==> Belongs(me, IdentOf(me, items[n].make.res))
  {
    forall n | 0 <= n < |items| && items[n].make.Hook? ensures Belongs(me, IdentOf(me, items[n].make.res)) {
      assert Interleaved.WellFormed(items[n]);
    }
  }

  lemma Recoverable(me: StackName, plan: set<Resource>, rec: Record, resources: seq<Resource>, v0: Things, view: Things)
    requires Interleaved.FromPlan(plan, Some(rec), resources) && CoherentPlan(me, plan) && Interleaved.Untouched(me, v0, view)
    requires view != v0 ==> Interleaved.New(v0, view) <= Interleaved.RecordIdents(me, Some(rec))
    ensures Coherent(me, rec) && LogicalMine(me, view) && Interleaved.New(v0, view) <= Interleaved.RecordIdents(me, Some(rec))
  {
    RecordFromPlan(me, plan, rec, resources);
    UntouchedLogical(me, v0, view);
  }

  lemma SettledIsClean(me: StackName, plan: set<Resource>, v0: Things, view: Things, b: Interleaved.Books)
    requires Interleaved.Untouched(me, v0, view) && Interleaved.New(v0, view) == Interleaved.LeftOver(me, v0, view, b)
    requires Interleaved.Members(b.applied) <= plan && Interleaved.Members(b.provisioned) <= plan
    requires b.failing.Some? ==> IdentOf(me, b.failing.value) !in v0
    ensures CleanPlan(me, plan, v0, view - Interleaved.Stray(me, b.failing))
  {
    var rest := view - Interleaved.Stray(me, b.failing);
    forall id | id in rest && id !in v0 ensures MaySurvive(me, plan, id) {
      assert id in Interleaved.New(v0, view);
      if id in Interleaved.KeptIdents(me, b.applied) {
        KeptIsPlanned(me, plan, b.applied, id);
      } else {
        KeptIsPlanned(me, plan, b.provisioned, id);
      }
    }
  }

  /** A rolled-back create can leave a thing no record names: that of a custom resource or a REST API
      whose hook made it and then failed.  Nothing else goes wrong here. */
  method HookLeavesOrphan(c: Cluster, item: Interleaved.Item) returns (created: Outcome)
    requires c.alone && c.quiet && c.alive && c.Guaranteed() && c.record.None? && LogicalMine(c.me, c.View())
    requires item.make.Hook? && Interleaved.WellFormed(item) && !item.make.res.nature.NestedStack? && IdentOf(c.me, item.make.res) in c.broken
    requires IdentOf(c.me, item.make.res) !in c.View()
    modifies c
    ensures created.Undone? && c.record.Some? && c.record.value.status.RolledBack?
    ensures Interleaved.Orphans(c.me, old(c.View()), c.View(), c.record) == {IdentOf(c.me, item.make.res)}
  {
    hide Tracks, ThingsAfter, KeepsToItsOwn, Accounted, Seen, Later, OwnersRespected;
    var r := item.make.res;
    var run := new Interleaved.Creation(c, [item], {r});
    OneHook(c.me, c.View(), item, c.broken);
    created := run.Run();
    assert IdentOf(c.me, r) in Interleaved.New(run.v0, c.View());
  }

  lemma OneHook(me: StackName, v0: Things, item: Interleaved.Item, broken: set<Ident>)
    requires item.make.Hook? && Interleaved.WellFormed(item) && IdentOf(me, item.make.res) in broken
    ensures var items := [item];
            && Interleaved.SoundPlan(me, items) && Interleaved.Members(Interleaved.Parts(item)) <= {item.make.res}
            && Interleaved.AllMakeable(me, v0, items, 1) && !Interleaved.AllSturdy(me, items, broken, 1)
  {
    var items := [item];
    assert items[0] == item && !Interleaved.Sturdy(me, items[0], broken);
  }
}
