/** Taking a stack's resources down: the rollback of a failed create, the teardown that
    recovery and delete share, and delete itself. */
module Teardown {
  import opened Wrappers
  import opened Stack
  import opened History
  import opened Cluster

  predicate KeptOnRollback(r: Resource) {
    r.policy.Retain?
  }

  predicate IsRetain(r: Resource) {
    r.policy.Retain? || r.policy.RetainExceptOnCreate?
  }

  predicate Kept(r: Resource, rollback: bool) {
    if rollback then KeptOnRollback(r) else IsRetain(r)
  }

  /** A failed delete of these does not stop a teardown: the hook is called, once. */
  predicate BestEffort(r: Resource) {
    r.nature.CustomResource? || r.nature.RestApi?
  }

  /** What a complete teardown removes. */
  ghost function Doomed(me: StackName, rs: seq<Resource>, rollback: bool): set<Ident> {
    set i | 0 <= i < |rs| && !Kept(rs[i], rollback) && !rs[i].nature.SignalWait? :: IdentOf(me, rs[i])
  }

  /** The same, in the order it goes: newest first. */
  ghost function DoomedOrder(me: StackName, rs: seq<Resource>, rollback: bool): seq<Ident> {
    if rs == [] then []
    else DoomedOrder(me, rs[1..], rollback) +
         (if Kept(rs[0], rollback) || rs[0].nature.SignalWait? then [] else [IdentOf(me, rs[0])])
  }

  lemma DoomedFrom(me: StackName, rs: seq<Resource>, rollback: bool, i: nat)
    requires i < |rs|
    ensures var now := if Kept(rs[i], rollback) || rs[i].nature.SignalWait? then {} else {IdentOf(me, rs[i])};
            Doomed(me, rs[i..], rollback) == now + Doomed(me, rs[i + 1..], rollback)
    ensures Kept(rs[i], rollback) || rs[i].nature.SignalWait? ==> Doomed(me, rs[i..], rollback) == Doomed(me, rs[i + 1..], rollback)
    ensures DoomedOrder(me, rs[i..], rollback) ==
            DoomedOrder(me, rs[i + 1..], rollback) +
            (if Kept(rs[i], rollback) || rs[i].nature.SignalWait? then [] else [IdentOf(me, rs[i])])
    ensures DistinctIdents(me, rs) ==> IdentOf(me, rs[i]) !in Doomed(me, rs[i + 1..], rollback)
  {
    var a, b := rs[i..], rs[i + 1..];
    assert a[0] == rs[i] && a[1..] == b;
    assert forall k :: 0 <= k < |b| ==> b[k] == a[k + 1] && b[k] == rs[i + 1 + k];
    forall id | id in Doomed(me, a, rollback)
      ensures id in (if Kept(rs[i], rollback) || rs[i].nature.SignalWait? then {} else {IdentOf(me, rs[i])}) + Doomed(me, b, rollback)
    {
      var k :| 0 <= k < |a| && !Kept(a[k], rollback) && !a[k].nature.SignalWait? && IdentOf(me, a[k]) == id;
      if k > 0 {
        assert b[k - 1] == a[k];
      }
    }
  }

  /** There and this stack's, or absent and never anyone else's. */
  ghost predicate Deletable(me: StackName, view: Things, id: Ident) {
    if id in view then Mine(me, view[id]) else Belongs(me, id)
  }

  /** rollbackCreate: everything the failed create applied, newest first, Retain resources
      kept; a failed delete is noted and the rest still goes.  It succeeds exactly when every
      delete does. */
  method RollbackCreate(c: Cluster, applied: seq<Resource>) returns (ok: bool)
    requires c.Guaranteed() && DistinctIdents(c.me, applied)
    requires forall i :: 0 <= i < |applied| ==> !applied[i].nature.SignalWait? && Deletable(c.me, c.View(), IdentOf(c.me, applied[i]))
    modifies c
    ensures c.Guaranteed() && c.record == old(c.record) && c.journal == old(c.journal)
    ensures Later(old(c.Now()), c.Now(), c.quiet) && c.refusals == old(c.refusals) && c.met == old(c.met)
    ensures !old(c.alive) ==> c.View() == old(c.View())
    ensures forall id :: id in c.View() ==> id in old(c.View()) && c.View()[id] == old(c.View())[id]
    ensures forall id :: id in old(c.View()) && id !in Doomed(c.me, applied, true) ==> id in c.View()
    ensures ok ==> c.View() == old(c.View()) - Doomed(c.me, applied, true)
    ensures ok ==> c.removed == old(c.removed) + DoomedOrder(c.me, applied, true)
    ensures RetainedStay(c.me, applied, old(c.View()), c.View(), true) && (ok ==> DroppedGone(c.me, applied, c.View(), false, true))
    ensures DeletesWork(old(c.Now()), c.Now()) ==> ok && c.alive
    ensures !ok && c.alive ==> c.deletes > old(c.deletes)
  {
    hide Tracks, ThingsAfter, KeepsToItsOwn, Accounted, Seen, RetainedStay, DroppedGone;
    ok := true;
    ghost var gone: set<Ident> := {};
    var i := |applied|;
    while i > 0
      invariant 0 <= i <= |applied|
      invariant c.Guaranteed() && c.record == old(c.record) && c.journal == old(c.journal)
      invariant Later(old(c.Now()), c.Now(), c.quiet) && c.refusals == old(c.refusals) && c.met == old(c.met)
      invariant DeletesWork(old(c.Now()), c.Now()) ==> ok && c.alive
      invariant !ok && c.alive ==> c.deletes > old(c.deletes)
      invariant !old(c.alive) ==> c.View() == old(c.View())
      invariant c.View() == old(c.View()) - gone && gone <= Doomed(c.me, applied[i..], true)
      invariant ok ==> gone == Doomed(c.me, applied[i..], true)
      invariant ok ==> c.removed == old(c.removed) + DoomedOrder(c.me, applied[i..], true)
    {
      i := i - 1;
      DoomedFrom(c.me, applied, true, i);
      if KeptOnRollback(applied[i]) {
        continue;
      }
      var id := IdentOf(c.me, applied[i]);
      var deleted := c.Delete(id);
      if id !in c.View() {
        gone := gone + {id};
      }
      if !deleted {
        ok := false;
      }
    }
    assert applied[0..] == applied;
    ShrinkKeeps(c.me, applied, old(c.View()), c.View(), true);
    DoomedDrops(c.me, applied, old(c.View()), true);
  }

  /** Resources not marked gone, in record order. */
  function Remaining(rs: seq<Resource>, gone: seq<bool>): seq<Resource>
    requires |rs| == |gone|
  {
    if rs == [] then []
    else (if gone[0] then [] else [rs[0]]) + Remaining(rs[1..], gone[1..])
  }

  lemma {:induction false} RemainingHas(rs: seq<Resource>, gone: seq<bool>)
    requires |rs| == |gone|
    ensures forall r :: r in Remaining(rs, gone) <==> exists i :: 0 <= i < |rs| && !gone[i] && rs[i] == r
    decreases |rs|
  {
    if rs != [] {
      RemainingHas(rs[1..], gone[1..]);
      forall r
        ensures r in Remaining(rs, gone) <==> exists i :: 0 <= i < |rs| && !gone[i] && rs[i] == r
      {
        if i :| 0 <= i < |rs| && !gone[i] && rs[i] == r {
          if i > 0 {
            assert rs[1..][i - 1] == r && !gone[1..][i - 1];
          }
        }
        if r in Remaining(rs[1..], gone[1..]) {
          var i :| 0 <= i < |rs[1..]| && !gone[1..][i] && rs[1..][i] == r;
          assert !gone[i + 1] && rs[i + 1] == r;
        }
      }
    }
  }

  /** What a teardown must account for. */
  ghost predicate Tracked(r: Resource) {
    r.nature.Object? || r.nature.NestedStack?
  }

  // ---------------------------------------------------------------- what the deletion policies promise

  /** Whatever thing is kept by the policy of every entry for it, or has none, is still there as it was. */
  ghost predicate RetainedStay(me: StackName, rs: seq<Resource>, before: Things, after: Things, rollback: bool) {
    forall id :: id in before && KeepsAll(me, rs, id, rollback) ==> id in after && after[id] == before[id]
  }

  /** A delete keeps Retain and RetainExceptOnCreate, a rollback Retain alone. */
  ghost predicate KeepsAll(me: StackName, rs: seq<Resource>, id: Ident, rollback: bool) {
    forall i :: 0 <= i < |rs| && IdentOf(me, rs[i]) == id ==>
      rs[i].policy == Retain || (rs[i].policy == RetainExceptOnCreate && !rollback)
  }

  /** What no entry for it keeps is gone (where labels are read, if it was this stack's). */
  ghost predicate DroppedGone(me: StackName, rs: seq<Resource>, view: Things, ownedOnly: bool, rollback: bool) {
    forall i :: 0 <= i < |rs| && !rs[i].nature.SignalWait? && DropsAll(me, rs, IdentOf(me, rs[i]), rollback) ==>
      IdentOf(me, rs[i]) !in view || (ownedOnly && !Mine(me, view[IdentOf(me, rs[i])]))
  }

  ghost predicate DropsAll(me: StackName, rs: seq<Resource>, id: Ident, rollback: bool) {
    forall i :: 0 <= i < |rs| && IdentOf(me, rs[i]) == id ==>
      rs[i].policy == Delete || (rs[i].policy == RetainExceptOnCreate && rollback)
  }

  lemma ShrinkKeeps(me: StackName, rs: seq<Resource>, before: Things, after: Things, rollback: bool)
    requires ShrinksBy(before, after, Doomed(me, rs, rollback))
    ensures RetainedStay(me, rs, before, after, rollback)
  {
  }

  lemma TakenDrops(me: StackName, rs: seq<Resource>, before: Things, ownedOnly: bool, rollback: bool)
    requires LogicalMine(me, before)
    ensures DroppedGone(me, rs, before - AllTaken(me, before, rs, ownedOnly, rollback), ownedOnly, rollback)
  {
    var after := before - AllTaken(me, before, rs, ownedOnly, rollback);
    forall i | 0 <= i < |rs| && !rs[i].nature.SignalWait? && DropsAll(me, rs, IdentOf(me, rs[i]), rollback)
      ensures IdentOf(me, rs[i]) !in after || (ownedOnly && !Mine(me, after[IdentOf(me, rs[i])]))
    {
      assert !Kept(rs[i], rollback);
      assert IdentOf(me, rs[i]) in Doomed(me, rs, rollback);
    }
  }

  lemma DoomedDrops(me: StackName, rs: seq<Resource>, before: Things, rollback: bool)
    ensures DroppedGone(me, rs, before - Doomed(me, rs, rollback), false, rollback)
  {
    forall i | 0 <= i < |rs| && !rs[i].nature.SignalWait? && DropsAll(me, rs, IdentOf(me, rs[i]), rollback)
      ensures IdentOf(me, rs[i]) in Doomed(me, rs, rollback)
    {
      assert !Kept(rs[i], rollback);
    }
  }

  /** An object that exists and is this stack's. */
  ghost predicate OurObject(me: StackName, view: Things, r: Resource) {
    r.nature.Object? ==> IdentOf(me, r) in view && Mine(me, view[IdentOf(me, r)])
  }

  /** Everything a teardown would delete by name is this stack's. */
  ghost predicate AllOurs(me: StackName, view: Things, rs: seq<Resource>, rollback: bool) {
    forall i :: 0 <= i < |rs| && !Kept(rs[i], rollback) ==> OurObject(me, view, rs[i])
  }

  /** A logical ident is only ever this stack's own thing. */
  ghost predicate LogicalMine(me: StackName, view: Things) {
    forall id :: id in view && Belongs(me, id) ==> Mine(me, view[id])
  }

  /** Nothing but what the teardown may remove is gone, and nothing is new. */
  ghost predicate ShrinksBy(before: Things, after: Things, doomed: set<Ident>) {
    && (forall id :: id in after ==> id in before && after[id] == before[id])
    && (forall id :: id in before && id !in doomed ==> id in after)
  }

  /** Named things of others survive. */
  ghost predicate SparesOthers(me: StackName, before: Things, after: Things) {
    forall id :: id in before && !Mine(me, before[id]) ==> id in after
  }

  /** A resource marked gone is: deleted, absent, or (when labels are read) not this stack's. */
  ghost predicate IsGone(me: StackName, view: Things, r: Resource, ownedOnly: bool) {
    Tracked(r) ==> IdentOf(me, r) !in view || (ownedOnly && !Mine(me, view[IdentOf(me, r)]))
  }

  /** What taking a resource down removes: its thing, or, where labels are read, its thing if it is
      not an object of another's. */
  ghost function Taken(me: StackName, view: Things, r: Resource, ownedOnly: bool): set<Ident> {
    if ownedOnly && r.nature.Object? && !HasMine(me, view, r) then {} else {IdentOf(me, r)}
  }

  ghost predicate HasMine(me: StackName, view: Things, r: Resource) {
    IdentOf(me, r) in view && Mine(me, view[IdentOf(me, r)])
  }

  /** One resource of a teardown.  `stop` ends the teardown with the resource still listed; it
      takes a refusal, or the death of the process; and what is best-effort only a refusal stops. */
  method TakeDown(c: Cluster, r: Resource, ownedOnly: bool) returns (gone: bool, stop: bool)
    requires !r.nature.SignalWait? && LogicalMine(c.me, c.View()) && c.Logged()
    modifies c
    ensures c.Logged() && c.record == old(c.record) && c.journal == old(c.journal) && Later(old(c.Now()), c.Now(), c.quiet)
    ensures !old(c.alive) ==> c.View() == old(c.View())
    ensures Flawless(old(c.Now()), c.Now()) ==> gone
    ensures gone && c.alive && c.deletes == old(c.deletes) ==> c.View() == old(c.View()) - Taken(c.me, old(c.View()), r, ownedOnly)
    ensures stop && c.alive ==> c.refusals > old(c.refusals) || c.deletes > old(c.deletes)
    ensures !stop ==> c.refusals == old(c.refusals)
    ensures stop && c.alive && !Tracked(r) ==> c.refusals > old(c.refusals)
    ensures ShrinksBy(old(c.View()), c.View(), {IdentOf(c.me, r)})
    ensures ownedOnly ==> SparesOthers(c.me, old(c.View()), c.View())
    ensures old(c.Guaranteed()) && (ownedOnly || OurObject(c.me, old(c.View()), r)) ==> c.Guaranteed()
    ensures gone != stop
    ensures gone ==> IsGone(c.me, c.View(), r, ownedOnly)
  {
    hide Tracks, ThingsAfter, KeepsToItsOwn, Accounted;
    var id := IdentOf(c.me, r);
    if ownedOnly && r.nature.Object? {
      var labels := c.GetLabels(id);
      if labels.ReadFailed? {
        return false, true;
      }
      if labels.NotFound? || labels.owner != Some(c.me) {
        return true, false;
      }
      assert id in c.View() && Mine(c.me, c.View()[id]);
    }
    var deleted := c.Delete(id);
    if deleted {
      return true, false;
    }
    if BestEffort(r) {
      // Only a refusal for lack of authority is fatal.
      var refused := *;
      if c.alive && refused {
        c.refusals := c.refusals + 1;
      }
      return !refused, refused;
    }
    return false, true;
  }

  /** What taking all of them down removes. */
  ghost function AllTaken(me: StackName, view: Things, rs: seq<Resource>, ownedOnly: bool, rollback: bool): set<Ident> {
    if ownedOnly then set id | id in Doomed(me, rs, rollback) && (id.Named? ==> id in view && Mine(me, view[id]))
    else Doomed(me, rs, rollback)
  }

  /** teardown: newest first.  It stops at the first failure, keeping in `remaining` whatever
      it retained, could not delete, or did not reach.  It takes a failure to stop it; unstopped, it
      removes all it is to remove, unless a best-effort delete failed, and only what is kept remains.
      Stopped or not, what the deletion policies keep is still there. */
  method TeardownAll(c: Cluster, resources: seq<Resource>, ownedOnly: bool, rollback: bool) returns (remaining: seq<Resource>, failed: bool)
    requires DistinctIdents(c.me, resources) && LogicalMine(c.me, c.View()) && c.Logged()
    modifies c
    ensures c.Logged() && c.record == old(c.record) && c.journal == old(c.journal) && Later(old(c.Now()), c.Now(), c.quiet)
    ensures !old(c.alive) ==> c.View() == old(c.View())
    ensures Flawless(old(c.Now()), c.Now()) ==> !failed
    ensures !failed && c.alive && c.deletes == old(c.deletes) ==>
              c.View() == old(c.View()) - AllTaken(c.me, old(c.View()), resources, ownedOnly, rollback)
    ensures failed && c.alive ==> c.refusals > old(c.refusals) || c.deletes > old(c.deletes)
    ensures !failed ==> c.refusals == old(c.refusals)
    ensures ShrinksBy(old(c.View()), c.View(), Doomed(c.me, resources, rollback))
    ensures ownedOnly ==> SparesOthers(c.me, old(c.View()), c.View())
    ensures old(c.Guaranteed()) && (ownedOnly || AllOurs(c.me, old(c.View()), resources, rollback)) ==> c.Guaranteed()
    ensures forall r :: r in remaining ==> r in resources
    ensures forall i :: 0 <= i < |resources| && Kept(resources[i], rollback) ==> resources[i] in remaining
    ensures forall i :: 0 <= i < |resources| && resources[i] !in remaining ==> IsGone(c.me, c.View(), resources[i], ownedOnly)
    ensures !failed ==> forall r :: r in remaining ==> Kept(r, rollback)
    ensures RetainedStay(c.me, resources, old(c.View()), c.View(), rollback)
    ensures !failed && c.alive && c.deletes == old(c.deletes) ==> DroppedGone(c.me, resources, c.View(), ownedOnly, rollback)
  {
    hide RetainedStay, DroppedGone, ShrinksBy, SparesOthers, IsGone, LogicalMine, AllOurs, OurObject, Doomed, DoomedOrder, Tracks, ThingsAfter, KeepsToItsOwn, Accounted, Seen, DistinctIdents, Taken, AllTaken, Later, Marked;
    var n := |resources|;
    var gone := new bool[n](_ => false);
    ghost var v0 := c.View();
    assert resources[n..] == [];
    NothingShrinks(c.me, v0, rollback);
    NothingTaken(c.me, v0, ownedOnly, rollback);
    ghost var h0 := c.Now();
    NothingYet(h0, c.quiet);
    failed := false;
    MarkedNone(c.me, v0, resources, gone[..], ownedOnly, rollback);
    var i := n;
    while i > 0 && !failed
      invariant 0 <= i <= n && gone.Length == n
      invariant c.Logged() && c.record == old(c.record) && c.journal == old(c.journal) && Later(h0, c.Now(), c.quiet) && (!h0.alive ==> c.View() == v0)
      invariant Flawless(h0, c.Now()) ==> !failed
      invariant !failed && c.alive && c.deletes == h0.deletes ==>
                  c.View() == v0 - AllTaken(c.me, v0, resources[i..], ownedOnly, rollback)
      invariant failed && c.alive ==> c.refusals > h0.refusals || c.deletes > h0.deletes
      invariant !failed ==> c.refusals == h0.refusals
      invariant LogicalMine(c.me, c.View())
      invariant ShrinksBy(v0, c.View(), Doomed(c.me, resources[i..], rollback))
      invariant ownedOnly ==> SparesOthers(c.me, v0, c.View())
      invariant old(c.Guaranteed()) && (ownedOnly || AllOurs(c.me, v0, resources, rollback)) ==> c.Guaranteed()
      invariant Marked(c.me, c.View(), resources, gone[..], i, ownedOnly, rollback, failed)
      decreases i
    {
      i := i - 1;
      var r := resources[i];
      DoomedFrom(c.me, resources, rollback, i);
      TakenFrom(c.me, v0, resources, ownedOnly, rollback, i);
      ghost var marks := gone[..];
      if Kept(r, rollback) {
        MarkedKept(c.me, c.View(), resources, marks, i, ownedOnly, rollback);
        continue;
      }
      if r.nature.SignalWait? {
        WaitIsGone(c.me, c.View(), r, ownedOnly);
        gone[i] := true;
        assert gone[..] == marks[i := true];
        MarkedNext(c.me, c.View(), c.View(), resources, marks, i, ownedOnly, rollback, true, false);
        continue;
      }
      ghost var v, h := c.View(), c.Now();
      StillThere(c.me, v0, v, resources, i, rollback);
      var g, stop := TakeDown(c, r, ownedOnly);
      gone[i] := g;
      failed := stop;
      LaterOn(h0, h, c.Now(), c.quiet);
      TakenNext(c.me, v0, v, resources, ownedOnly, rollback, i);
      assert gone[..] == marks[i := g];
      GoneStays(c.me, v, c.View(), IdentOf(c.me, r), resources, ownedOnly);
      MarkedNext(c.me, v, c.View(), resources, marks, i, ownedOnly, rollback, g, stop);
      ShrinkStep(c.me, v0, v, c.View(), resources, rollback, i);
    }
    assert i == 0 ==> resources[i..] == resources;
    DoomedSuffix(c.me, resources, rollback, i);
    ShrinksWider(v0, c.View(), Doomed(c.me, resources[i..], rollback), Doomed(c.me, resources, rollback));
    RemainingHas(resources, gone[..]);
    MarkedDone(c.me, c.View(), resources, gone[..], i, ownedOnly, rollback, failed);
    remaining := Remaining(resources, gone[..]);
    ShrinkKeeps(c.me, resources, v0, c.View(), rollback);
    TakenDrops(c.me, resources, v0, ownedOnly, rollback);
  }

  /** The marks once resources from `i` on have been gone through. */
  ghost predicate Marked(me: StackName, view: Things, rs: seq<Resource>, gone: seq<bool>, i: nat, ownedOnly: bool, rollback: bool, failed: bool) {
    && |gone| == |rs| && i <= |rs|
    && (forall j :: 0 <= j < |rs| && (j < i || Kept(rs[j], rollback)) ==> !gone[j])
    && (forall j :: 0 <= j < |rs| && gone[j] ==> IsGone(me, view, rs[j], ownedOnly))
    && (!failed ==> forall j :: i <= j < |rs| && !gone[j] ==> Kept(rs[j], rollback))
  }

  lemma MarkedNone(me: StackName, view: Things, rs: seq<Resource>, gone: seq<bool>, ownedOnly: bool, rollback: bool)
    requires |gone| == |rs| && forall j :: 0 <= j < |gone| ==> !gone[j]
    ensures Marked(me, view, rs, gone, |rs|, ownedOnly, rollback, false)
  {
  }

  lemma MarkedKept(me: StackName, view: Things, rs: seq<Resource>, gone: seq<bool>, i: nat, ownedOnly: bool, rollback: bool)
    requires i < |rs| && Kept(rs[i], rollback) && Marked(me, view, rs, gone, i + 1, ownedOnly, rollback, false)
    ensures Marked(me, view, rs, gone, i, ownedOnly, rollback, false)
  {
  }

  lemma MarkedNext(me: StackName, before: Things, after: Things, rs: seq<Resource>, gone: seq<bool>, i: nat, ownedOnly: bool,
                   rollback: bool, g: bool, failed: bool)
    requires i < |rs| && !Kept(rs[i], rollback) && Marked(me, before, rs, gone, i + 1, ownedOnly, rollback, false)
    requires forall j :: 0 <= j < |rs| && IsGone(me, before, rs[j], ownedOnly) ==> IsGone(me, after, rs[j], ownedOnly)
    requires (g ==> IsGone(me, after, rs[i], ownedOnly)) && g != failed
    ensures Marked(me, after, rs, gone[i := g], i, ownedOnly, rollback, failed)
  {
    hide IsGone;
  }

  lemma MarkedDone(me: StackName, view: Things, rs: seq<Resource>, gone: seq<bool>, i: nat, ownedOnly: bool, rollback: bool, failed: bool)
    requires Marked(me, view, rs, gone, i, ownedOnly, rollback, failed) && (!failed ==> i == 0)
    requires forall r :: r in Remaining(rs, gone) <==> exists j :: 0 <= j < |rs| && !gone[j] && rs[j] == r
    ensures var remaining := Remaining(rs, gone);
            && (forall r :: r in remaining ==> r in rs)
            && (forall j :: 0 <= j < |rs| && Kept(rs[j], rollback) ==> rs[j] in remaining)
            && (forall j :: 0 <= j < |rs| && rs[j] !in remaining ==> IsGone(me, view, rs[j], ownedOnly))
            && (!failed ==> forall r :: r in remaining ==> Kept(r, rollback))
  {
    hide IsGone;
  }

  lemma NothingTaken(me: StackName, view: Things, ownedOnly: bool, rollback: bool)
    ensures AllTaken(me, view, [], ownedOnly, rollback) == {}
  {
    assert Doomed(me, [], rollback) == {};
  }

  /** One more resource from the end of the list. */
  lemma TakenFrom(me: StackName, view: Things, rs: seq<Resource>, ownedOnly: bool, rollback: bool, i: nat)
    requires i < |rs|
    ensures AllTaken(me, view, rs[i..], ownedOnly, rollback) == AllTaken(me, view, rs[i + 1..], ownedOnly, rollback) +
              (if Kept(rs[i], rollback) || rs[i].nature.SignalWait? then {} else Taken(me, view, rs[i], ownedOnly))
  {
    DoomedFrom(me, rs, rollback, i);
  }

  /** What was taken before leaves this resource's own thing as it was. */
  lemma TakenNext(me: StackName, v0: Things, v: Things, rs: seq<Resource>, ownedOnly: bool, rollback: bool, i: nat)
    requires i < |rs| && DistinctIdents(me, rs) && !Kept(rs[i], rollback)
    ensures v == v0 - AllTaken(me, v0, rs[i + 1..], ownedOnly, rollback) ==> Taken(me, v, rs[i], ownedOnly) == Taken(me, v0, rs[i], ownedOnly)
  {
    DoomedFrom(me, rs, rollback, i);
  }

  lemma WaitIsGone(me: StackName, view: Things, r: Resource, ownedOnly: bool)
    requires r.nature.SignalWait?
    ensures IsGone(me, view, r, ownedOnly)
  {
  }

  lemma NothingShrinks(me: StackName, v: Things, rollback: bool)
    ensures ShrinksBy(v, v, Doomed(me, [], rollback)) && SparesOthers(me, v, v)
  {
  }

  lemma ShrinksWider(a: Things, b: Things, doomed: set<Ident>, wider: set<Ident>)
    requires ShrinksBy(a, b, doomed) && doomed <= wider
    ensures ShrinksBy(a, b, wider)
  {
  }

  lemma ShrinkStep(me: StackName, v0: Things, v: Things, after: Things, rs: seq<Resource>, rollback: bool, i: nat)
    requires i < |rs| && !Kept(rs[i], rollback) && !rs[i].nature.SignalWait?
    requires ShrinksBy(v0, v, Doomed(me, rs[i + 1..], rollback)) && ShrinksBy(v, after, {IdentOf(me, rs[i])})
    requires LogicalMine(me, v)
    ensures ShrinksBy(v0, after, Doomed(me, rs[i..], rollback)) && LogicalMine(me, after)
    ensures SparesOthers(me, v0, v) && SparesOthers(me, v, after) ==> SparesOthers(me, v0, after)
  {
    DoomedFrom(me, rs, rollback, i);
  }

  lemma DoomedSuffix(me: StackName, rs: seq<Resource>, rollback: bool, i: nat)
    requires i <= |rs|
    ensures Doomed(me, rs[i..], rollback) <= Doomed(me, rs, rollback)
  {
    forall id | id in Doomed(me, rs[i..], rollback)
      ensures id in Doomed(me, rs, rollback)
    {
      var k :| 0 <= k < |rs[i..]| && !Kept(rs[i..][k], rollback) && !rs[i..][k].nature.SignalWait? && IdentOf(me, rs[i..][k]) == id;
      assert rs[i + k] == rs[i..][k];
    }
  }

  lemma StillThere(me: StackName, before: Things, view: Things, rs: seq<Resource>, i: nat, rollback: bool)
    requires i < |rs| && DistinctIdents(me, rs) && ShrinksBy(before, view, Doomed(me, rs[i + 1..], rollback))
    requires !Kept(rs[i], rollback)
    ensures AllOurs(me, before, rs, rollback) ==> OurObject(me, view, rs[i])
  {
    DoomedFrom(me, rs, rollback, i);
  }

  lemma GoneStays(me: StackName, before: Things, after: Things, id: Ident, rs: seq<Resource>, ownedOnly: bool)
    requires ShrinksBy(before, after, {id})
    ensures forall j :: 0 <= j < |rs| && IsGone(me, before, rs[j], ownedOnly) ==> IsGone(me, after, rs[j], ownedOnly)
  {
  }
}
