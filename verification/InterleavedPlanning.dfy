/** From a template to a stack provisioned one template resource at a time: the dependency order, each
    resource's ancestors, and the interleaved create that follows them. */
module InterleavedPlanning {
  import opened Wrappers
  import opened Stack
  import opened History
  import opened Cluster
  import opened Graph
  import opened Readiness
  import opened Timing
  import opened Teardown
  import opened Settling
  import opened Planning
  import I = Interleaved

  /** What each template resource turns out to be made of, when its turn comes. */
  type Makes = map<Id, I.Make>

  ghost function ItemFor(makes: Makes, x: Id, after: set<Id>): I.Item {
    I.Item(x, after, if x in makes then makes[x] else I.Nothing)
  }

  ghost function BuildsOf(raw: seq<Id>, makes: Makes): Builds {
    map x | x in raw :: I.Parts(ItemFor(makes, x, {}))
  }

  /** Parts are well-formed and of their own template resource, and no two stand for one thing. */
  ghost predicate SoundMakes(me: StackName, raw: seq<Id>, makes: Makes) {
    && (forall x :: x in raw ==> I.WellFormed(ItemFor(makes, x, {})) && I.DistinctParts(me, ItemFor(makes, x, {})))
    && (forall x, y :: x in raw && y in raw && x != y ==> I.ItemIdents(me, ItemFor(makes, x, {})) !! I.ItemIdents(me, ItemFor(makes, y, {})))
  }

  ghost predicate ItemsOf(deps: map<Id, seq<Id>>, ids: seq<Id>, makes: Makes, items: seq<I.Item>) {
    |items| <= |ids| && forall a :: 0 <= a < |items| ==> ItemOf(deps, ids[a], makes, items[a])
  }

  ghost predicate ItemOf(deps: map<Id, seq<Id>>, x: Id, makes: Makes, item: I.Item) {
    item == ItemFor(makes, x, item.after) && forall y :: y in item.after <==> DependsOn(deps, x, y)
  }

  method Items(deps: map<Id, seq<Id>>, ids: seq<Id>, makes: Makes) returns (items: seq<I.Item>)
    ensures |items| == |ids| && ItemsOf(deps, ids, makes, items)
  {
    hide DependsOn;
    items := [];
    for a := 0 to |ids|
      invariant |items| == a && ItemsOf(deps, ids, makes, items)
    {
      var after := Ancestors(deps, ids[a]);
      items := items + [I.Item(ids[a], after, if ids[a] in makes then makes[ids[a]] else I.Nothing)];
    }
  }

  /** The items of a topological order are a sound plan. */
  lemma ItemsAreSound(me: StackName, raw: seq<Id>, deps: map<Id, seq<Id>>, ids: seq<Id>, makes: Makes, items: seq<I.Item>)
    requires Topological(raw, deps, ids) && (forall x :: x in deps ==> x in raw) && SoundMakes(me, raw, makes)
    requires |items| == |ids| && ItemsOf(deps, ids, makes, items)
    ensures I.SoundPlan(me, items)
  {
    forall i | 0 <= i < |items| ensures SameMake(items[i], ItemFor(makes, ids[i], {})) && ids[i] in raw {
      assert ItemOf(deps, ids[i], makes, items[i]);
    }
    forall i | 0 <= i < |items| ensures I.WellFormed(items[i]) && I.DistinctParts(me, items[i]) {
      SameParts(me, items[i], ItemFor(makes, ids[i], {}));
    }
    forall i, j | 0 <= i < j < |items|
      ensures I.ItemIdents(me, items[i]) !! I.ItemIdents(me, items[j]) && I.ItemLids(items[i]) !! I.ItemLids(items[j])
      ensures items[j].base !in items[i].after
    {
      SameParts(me, items[i], ItemFor(makes, ids[i], {}));
      SameParts(me, items[j], ItemFor(makes, ids[j], {}));
      assert ids[i] != ids[j];
      LidsApart(items[i], items[j]);
      NotBefore(raw, deps, ids, makes, items, i, j);
    }
  }

  ghost predicate SameMake(a: I.Item, b: I.Item) {
    a.base == b.base && a.make == b.make
  }

  lemma SameParts(me: StackName, a: I.Item, b: I.Item)
    requires SameMake(a, b)
    ensures I.Parts(a) == I.Parts(b) && (I.WellFormed(a) <==> I.WellFormed(b)) && (I.DistinctParts(me, a) <==> I.DistinctParts(me, b))
    ensures I.ItemIdents(me, a) == I.ItemIdents(me, b)
    ensures forall v0 :: (I.Makeable(me, v0, a) <==> I.Makeable(me, v0, b)) && (I.HookFree(me, v0, a) <==> I.HookFree(me, v0, b))
  {
  }

  lemma LidsApart(a: I.Item, b: I.Item)
    requires I.WellFormed(a) && I.WellFormed(b) && a.base != b.base
    ensures I.ItemLids(a) !! I.ItemLids(b)
  {
    forall l | l in I.ItemLids(a) ensures l.base == a.base {
    }
    forall l | l in I.ItemLids(b) ensures l.base == b.base {
    }
  }

  lemma NotBefore(raw: seq<Id>, deps: map<Id, seq<Id>>, ids: seq<Id>, makes: Makes, items: seq<I.Item>, i: nat, j: nat)
    requires Topological(raw, deps, ids) && (forall x :: x in deps ==> x in raw)
    requires i < j < |items| == |ids| && ItemsOf(deps, ids, makes, items)
    ensures items[j].base !in items[i].after
  {
    assert ItemOf(deps, ids[i], makes, items[i]) && ItemOf(deps, ids[j], makes, items[j]);
    if items[j].base in items[i].after {
      var p :| DependsPath(deps, p) && p[0] == ids[i] && p[|p| - 1] == ids[j];
      PathComesEarlier(raw, deps, ids, p, i, j);
    }
  }

  lemma {:induction false} InAllBuilts(items: seq<I.Item>, n: nat, i: nat, b: Built)
    requires i < n <= |items| && b in I.BuiltsOf(items[i])
    ensures b in I.AllBuilts(items, n)
  {
    if i < n - 1 {
      InAllBuilts(items, n - 1, i, b);
    }
  }

  /** Where a part comes in the order. */
  lemma PartAt(raw: seq<Id>, deps: map<Id, seq<Id>>, ids: seq<Id>, makes: Makes, items: seq<I.Item>, x: Id, p: nat) returns (k: nat)
    requires Topological(raw, deps, ids) && |items| == |ids| && ItemsOf(deps, ids, makes, items)
    requires x in raw && p < |PartsOf(BuildsOf(raw, makes), x)|
    ensures var order := I.AllBuilts(items, |items|);
            && k < |order| && order[k].res == PartsOf(BuildsOf(raw, makes), x)[p]
            && forall y :: y in order[k].after <==> DependsOn(deps, x, y)
  {
    hide DependsOn;
    var order := I.AllBuilts(items, |items|);
    var a :| 0 <= a < |ids| && ids[a] == x;
    assert ItemOf(deps, ids[a], makes, items[a]);
    var b := I.BuiltsOf(items[a])[p];
    InAllBuilts(items, |items|, a, b);
    k :| 0 <= k < |order| && order[k] == b;
  }

  lemma TemplateOnTime(me: StackName, raw: seq<Id>, deps: map<Id, seq<Id>>, ids: seq<Id>, makes: Makes, items: seq<I.Item>,
                       journal: seq<Note>, from: nat)
    requires Topological(raw, deps, ids) && SoundMakes(me, raw, makes) && |items| == |ids| && ItemsOf(deps, ids, makes, items)
    ensures InTime(me, I.AllBuilts(items, |items|), journal, from) ==> OnTime(me, deps, raw, BuildsOf(raw, makes), journal, from)
    ensures AllReady(I.AllBuilts(items, |items|), journal, from) ==> AllPartsReady(raw, BuildsOf(raw, makes), journal, from)
  {
    hide ReadyAfter, DependsOn, ReadyBy, IdentOf, I.AllBuilts, Topological, ItemsOf;
    var order, builds := I.AllBuilts(items, |items|), BuildsOf(raw, makes);
    if InTime(me, order, journal, from) {
      forall n, x, p, y, q | from <= n < |journal| && x in raw && 0 <= p < |PartsOf(builds, x)| && y in raw && 0 <= q < |PartsOf(builds, y)|
        && journal[n] == Made(IdentOf(me, PartsOf(builds, x)[p])) && NeedsOther(deps, x, y)
        ensures ReadyBy(journal, from, n, PartsOf(builds, y)[q].lid)
      {
        var k := PartAt(raw, deps, ids, makes, items, x, p);
        var j := PartAt(raw, deps, ids, makes, items, y, q);
        PartBase(me, raw, makes, x, p);
        PartBase(me, raw, makes, y, q);
        assert Depends(order[k], order[j]);
      }
    }
    if AllReady(order, journal, from) {
      forall y, q | y in raw && 0 <= q < |PartsOf(builds, y)| ensures ReadyBy(journal, from, |journal|, PartsOf(builds, y)[q].lid) {
        var j := PartAt(raw, deps, ids, makes, items, y, q);
      }
    }
  }

  lemma PartBase(me: StackName, raw: seq<Id>, makes: Makes, x: Id, p: nat)
    requires SoundMakes(me, raw, makes) && x in raw && p < |PartsOf(BuildsOf(raw, makes), x)|
    ensures PartsOf(BuildsOf(raw, makes), x)[p].lid.base == x
  {
    assert I.WellFormed(ItemFor(makes, x, {}));
  }

  /** Every template resource can be made, and the names of its objects are free. */
  ghost predicate AllCanBeMade(me: StackName, v0: Things, raw: seq<Id>, makes: Makes) {
    forall x :: x in raw ==> I.Makeable(me, v0, ItemFor(makes, x, {}))
  }

  /** Nothing is left of what an earlier stack of the name made through a hook of the template. */
  ghost predicate HooksFree(me: StackName, v0: Things, raw: seq<Id>, makes: Makes) {
    forall x :: x in raw ==> I.HookFree(me, v0, ItemFor(makes, x, {}))
  }

  lemma FreeTogether(me: StackName, v0: Things, raw: seq<Id>, deps: map<Id, seq<Id>>, ids: seq<Id>, makes: Makes, items: seq<I.Item>)
    requires Topological(raw, deps, ids) && |items| == |ids| && ItemsOf(deps, ids, makes, items)
    ensures I.AllMakeable(me, v0, items, |items|) <==> AllCanBeMade(me, v0, raw, makes)
    ensures HooksFree(me, v0, raw, makes) ==> forall i :: 0 <= i < |items| ==> I.HookFree(me, v0, items[i])
  {
    hide DependsOn, ReadyAfter, I.Makeable, I.HookFree;
    forall i | 0 <= i < |items|
      ensures ids[i] in raw && (I.Makeable(me, v0, items[i]) <==> I.Makeable(me, v0, ItemFor(makes, ids[i], {})))
      ensures I.HookFree(me, v0, items[i]) <==> I.HookFree(me, v0, ItemFor(makes, ids[i], {}))
    {
      assert ItemOf(deps, ids[i], makes, items[i]);
      SameParts(me, items[i], ItemFor(makes, ids[i], {}));
    }
    if I.AllMakeable(me, v0, items, |items|) {
      forall x | x in raw ensures I.Makeable(me, v0, ItemFor(makes, x, {})) {
        var a :| 0 <= a < |ids| && ids[a] == x;
        assert I.Makeable(me, v0, items[a]);
      }
    }
  }

  /** Every part there is something to make for is there as specified. */
  ghost predicate AllMade(me: StackName, raw: seq<Id>, makes: Makes, view: Things) {
    forall x, p :: x in raw && 0 <= p < |PartsOf(BuildsOf(raw, makes), x)| && !PartsOf(BuildsOf(raw, makes), x)[p].nature.SignalWait? ==>
      var r := PartsOf(BuildsOf(raw, makes), x)[p];
      IdentOf(me, r) in view && view[IdentOf(me, r)] == Thing(Some(me), r.spec)
  }

  /** Everything new is that of some part, as specified. */
  ghost predicate OnlyMade(me: StackName, raw: seq<Id>, makes: Makes, v0: Things, view: Things) {
    forall id :: id in view && id !in v0 ==> MadeFor(me, raw, makes, id, view[id])
  }

  ghost predicate MadeFor(me: StackName, raw: seq<Id>, makes: Makes, id: Ident, t: Thing) {
    exists x, p :: x in raw && 0 <= p < |PartsOf(BuildsOf(raw, makes), x)| &&
      IdentOf(me, PartsOf(BuildsOf(raw, makes), x)[p]) == id && t == Thing(Some(me), PartsOf(BuildsOf(raw, makes), x)[p].spec)
  }

  lemma MadeAll(me: StackName, raw: seq<Id>, deps: map<Id, seq<Id>>, ids: seq<Id>, makes: Makes, items: seq<I.Item>, v0: Things, view: Things)
    requires Topological(raw, deps, ids) && |items| == |ids| && ItemsOf(deps, ids, makes, items)
    ensures AllAsSpecified(me, ResourcesOf(I.AllBuilts(items, |items|)), view) ==> AllMade(me, raw, makes, view)
    ensures AsSpecified(me, ResourcesOf(I.AllBuilts(items, |items|)), v0, view) ==> OnlyMade(me, raw, makes, v0, view)
  {
    hide DependsOn, ReadyAfter, IdentOf, ItemsOf, Topological, I.AllBuilts, BuildsOf;
    var order := I.AllBuilts(items, |items|);
    var rs := ResourcesOf(order);
    if AllAsSpecified(me, rs, view) {
      forall x, p | x in raw && 0 <= p < |PartsOf(BuildsOf(raw, makes), x)| && !PartsOf(BuildsOf(raw, makes), x)[p].nature.SignalWait?
        ensures var r := PartsOf(BuildsOf(raw, makes), x)[p];
                IdentOf(me, r) in view && view[IdentOf(me, r)] == Thing(Some(me), r.spec)
      {
        var k := PartAt(raw, deps, ids, makes, items, x, p);
        assert rs[k] == order[k].res;
      }
    }
    if AsSpecified(me, rs, v0, view) {
      forall id | id in view && id !in v0 ensures MadeFor(me, raw, makes, id, view[id]) {
        var i :| 0 <= i < |rs| && !rs[i].nature.SignalWait? && IdentOf(me, rs[i]) == id && view[id] == Thing(Some(me), rs[i].spec);
        var x, p := PartOf(raw, deps, ids, makes, items, order[i]);
      }
    }
  }

  /** Every entry of the order is some template resource's part. */
  lemma PartOf(raw: seq<Id>, deps: map<Id, seq<Id>>, ids: seq<Id>, makes: Makes, items: seq<I.Item>, b: Built) returns (x: Id, p: nat)
    requires Topological(raw, deps, ids) && |items| == |ids| && ItemsOf(deps, ids, makes, items) && b in I.AllBuilts(items, |items|)
    ensures x in raw && p < |PartsOf(BuildsOf(raw, makes), x)| && PartsOf(BuildsOf(raw, makes), x)[p] == b.res
  {
    hide DependsOn, ReadyAfter, I.AllBuilts;
    var a := I.BuiltFromItem(items, |items|, b);
    assert ItemOf(deps, ids[a], makes, items[a]);
    p :| 0 <= p < |I.BuiltsOf(items[a])| && I.BuiltsOf(items[a])[p] == b;
    x := ids[a];
  }

  lemma NothingMadeYet(me: StackName, raw: seq<Id>, makes: Makes, v0: Things)
    ensures OnlyMade(me, raw, makes, v0, v0)
  {
  }

  /** What the interleaved create may record. */
  ghost function PlanOf(items: seq<I.Item>): set<Resource> {
    set i, r | 0 <= i < |items| && r in I.Parts(items[i]) :: r
  }

  lemma PartsPlanned(items: seq<I.Item>)
    ensures forall i :: 0 <= i < |items| ==> I.Members(I.Parts(items[i])) <= PlanOf(items)
  {
  }

  /** A template is refused, and the cluster left alone, exactly if its dependencies are circular.
      Otherwise, wherever the create fails or dies, nothing was made, by a hook or as an object, before every
      part of all that the template says it depends on, directly or not, was ready, and all that is new is as
      the template specifies it; and at CREATE_COMPLETE, which when nothing fails is reached exactly if
      everything can be made, everything is there as specified, and ready. */
  method CreateInterleaved(c: Cluster, raw: seq<Id>, deps: map<Id, seq<Id>>, makes: Makes) returns (r: Provisioned)
    requires Distinct(raw) && (forall x :: x in deps ==> x in raw) && SoundMakes(c.me, raw, makes)
    requires c.Guaranteed() && c.alive && LogicalMine(c.me, c.View()) && HooksFree(c.me, c.View(), raw, makes)
    modifies c
    ensures c.Guaranteed() && old(c.journal) <= c.journal
    ensures r.Refused? <==> !Acyclic(raw, deps)
    ensures r.Refused? ==> c.things == old(c.things) && c.record == old(c.record) && forall x :: x in r.stuck <==> x in raw && Tangled(raw, deps, x)
    ensures OnTime(c.me, deps, raw, BuildsOf(raw, makes), c.journal, |old(c.journal)|)
    ensures OnlyMade(c.me, raw, makes, old(c.View()), c.View())
    ensures r == Ran(Created) ==> AllPartsReady(raw, BuildsOf(raw, makes), c.journal, |old(c.journal)|) && AllMade(c.me, raw, makes, c.View())
    ensures Flawless(old(c.Now()), c.Now()) ==>
              (r == Ran(Created) <==> Acyclic(raw, deps) && AllCanBeMade(c.me, old(c.View()), raw, makes) && (c.alone || c.met == old(c.met)))
    ensures Flawless(old(c.Now()), c.Now()) && r.Ran? && r != Ran(Created) ==> c.record.Some? && c.record.value.status.RolledBack?
  {
    hide Acyclic, Tangled, LexAtMost, Tracks, ThingsAfter, KeepsToItsOwn, Accounted, Seen, Later, OwnersRespected, ItemsOf, I.SoundPlan, SoundMakes,
      Topological, OnTime, AllPartsReady, AllReady, HooksFree, AllCanBeMade, I.AllMakeable, I.AllBuilts, InTime, I.LeftOver, I.Untouched,
      I.FromPlan, I.RecordIdents, Idents, I.Members, LogicalMine, I.HookFree, BuildsOf, Orderly, PartitionOf, AllMade, OnlyMade, AsSpecified, AllAsSpecified, I.AllParts, I.New;
    var o := Order(raw, deps);
    match o {
      case Circular(stuck) =>
        NothingOnTime(c.me, deps, raw, BuildsOf(raw, makes), c.journal);
        NothingMadeYet(c.me, raw, makes, c.View());
        r := Refused(stuck);
      case Ordered(ids) =>
        var items := Items(deps, ids, makes);
        ItemsAreSound(c.me, raw, deps, ids, makes, items);
        FreeTogether(c.me, c.View(), raw, deps, ids, makes, items);
        PartsPlanned(items);
        var run := new I.Creation(c, items, PlanOf(items));
        var outcome := run.Run();
        TemplateOnTime(c.me, raw, deps, ids, makes, items, c.journal, run.p.from);
        MadeAll(c.me, raw, deps, ids, makes, items, run.v0, c.View());
        r := Ran(outcome);
    }
  }
}
