/** From a template to a provisioned stack: the dependency order, each resource's ancestors, and the
    create that follows them. */
module Planning {
  import opened Wrappers
  import opened Stack
  import opened History
  import opened Cluster
  import opened Graph
  import opened Readiness
  import opened Timing
  import opened Settling
  import opened Deploy

  /** What the template resources are built into, by template resource. */
  type Builds = map<Id, seq<Resource>>

  ghost function PartsOf(builds: Builds, id: Id): seq<Resource> {
    if id in builds then builds[id] else []
  }

  /** Position `p` of template resource number `a`. */
  datatype Spot = Spot(a: nat, p: nat)

  predicate Before(s: Spot, t: Spot) {
    s.a < t.a || (s.a == t.a && s.p < t.p)
  }

  ghost predicate At(ids: seq<Id>, builds: Builds, s: Spot) {
    s.a < |ids| && s.p < |PartsOf(builds, ids[s.a])|
  }

  ghost function ResourceAt(ids: seq<Id>, builds: Builds, s: Spot): Resource
    requires At(ids, builds, s)
  {
    PartsOf(builds, ids[s.a])[s.p]
  }

  /** Objects and wait conditions, each built from its own template resource, with logical ids and
      things of their own. */
  ghost predicate SoundBuilds(me: StackName, raw: seq<Id>, builds: Builds) {
    && (forall x, p :: x in raw && 0 <= p < |PartsOf(builds, x)| ==>
          var r := PartsOf(builds, x)[p];
          r.lid.base == x && (r.nature.Object? || r.nature.SignalWait?))
    && (forall x, p, y, q :: x in raw && y in raw && 0 <= p < |PartsOf(builds, x)| && 0 <= q < |PartsOf(builds, y)| && (x != y || p != q) ==>
          && PartsOf(builds, x)[p].lid != PartsOf(builds, y)[q].lid
          && IdentOf(me, PartsOf(builds, x)[p]) != IdentOf(me, PartsOf(builds, y)[q]))
  }

  /** `order` goes through the template resources in order and through the parts of each; `spots` says
      which each is. */
  ghost predicate Follows(deps: map<Id, seq<Id>>, ids: seq<Id>, builds: Builds, order: seq<Built>, spots: seq<Spot>, upto: Spot) {
    && |spots| == |order|
    && (forall k :: 0 <= k < |order| ==>
          && At(ids, builds, spots[k]) && Before(spots[k], upto) && order[k].res == ResourceAt(ids, builds, spots[k])
          && forall y :: y in order[k].after <==> DependsOn(deps, ids[spots[k].a], y))
    && (forall k, l :: 0 <= k < l < |order| ==> Before(spots[k], spots[l]))
    && (forall s :: At(ids, builds, s) && Before(s, upto) ==> s in spots)
  }

  /** The built order of a template: each resource's parts, with its ancestors, in dependency order. */
  method BuildOrder(deps: map<Id, seq<Id>>, ids: seq<Id>, builds: Builds) returns (order: seq<Built>, ghost spots: seq<Spot>)
    ensures Follows(deps, ids, builds, order, spots, Spot(|ids|, 0))
  {
    order, spots := [], [];
    for a := 0 to |ids|
      invariant Follows(deps, ids, builds, order, spots, Spot(a, 0))
    {
      var after := Ancestors(deps, ids[a]);
      var parts := if ids[a] in builds then builds[ids[a]] else [];
      for p := 0 to |parts|
        invariant Follows(deps, ids, builds, order, spots, Spot(a, p))
      {
        FollowsNext(deps, ids, builds, order, spots, Spot(a, p), Built(parts[p], after));
        order, spots := order + [Built(parts[p], after)], spots + [Spot(a, p)];
      }
      FollowsWrap(deps, ids, builds, order, spots, a);
    }
  }

  lemma FollowsNext(deps: map<Id, seq<Id>>, ids: seq<Id>, builds: Builds, order: seq<Built>, spots: seq<Spot>, s: Spot, b: Built)
    requires Follows(deps, ids, builds, order, spots, s) && At(ids, builds, s) && b.res == ResourceAt(ids, builds, s)
    requires forall y :: y in b.after <==> DependsOn(deps, ids[s.a], y)
    ensures Follows(deps, ids, builds, order + [b], spots + [s], Spot(s.a, s.p + 1))
  {
    hide DependsOn;
    var order', spots', next := order + [b], spots + [s], Spot(s.a, s.p + 1);
    forall k | 0 <= k < |order'|
      ensures At(ids, builds, spots'[k]) && Before(spots'[k], next) && order'[k].res == ResourceAt(ids, builds, spots'[k])
      ensures forall y :: y in order'[k].after <==> DependsOn(deps, ids[spots'[k].a], y)
    {
      if k < |order| {
        assert order'[k] == order[k] && spots'[k] == spots[k];
      }
    }
    forall t | At(ids, builds, t) && Before(t, next) ensures t in spots' {
      assert t == s || Before(t, s);
    }
  }

  lemma FollowsWrap(deps: map<Id, seq<Id>>, ids: seq<Id>, builds: Builds, order: seq<Built>, spots: seq<Spot>, a: nat)
    requires a < |ids| && Follows(deps, ids, builds, order, spots, Spot(a, |PartsOf(builds, ids[a])|))
    ensures Follows(deps, ids, builds, order, spots, Spot(a + 1, 0))
  {
    hide DependsOn;
    forall t | At(ids, builds, t) && Before(t, Spot(a + 1, 0)) ensures t in spots {
      assert Before(t, Spot(a, |PartsOf(builds, ids[a])|));
    }
  }

  /** The order built from a topological order of the template is a sound plan. */
  lemma BuiltIsSound(me: StackName, raw: seq<Id>, deps: map<Id, seq<Id>>, ids: seq<Id>, builds: Builds, order: seq<Built>, spots: seq<Spot>)
    requires Topological(raw, deps, ids) && (forall x :: x in deps ==> x in raw) && SoundBuilds(me, raw, builds)
    requires Follows(deps, ids, builds, order, spots, Spot(|ids|, 0))
    ensures Deployment.Sound(me, order)
  {
    hide ReadyAfter, DependsOn;
    forall i, j | 0 <= i < j < |order|
      ensures order[i].res.lid != order[j].res.lid && IdentOf(me, order[i].res) != IdentOf(me, order[j].res)
    {
      DifferentParts(me, raw, ids, builds, spots[i], spots[j]);
    }
    var at := seq(|order|, k requires 0 <= k < |order| => spots[k].a);
    assert BuiltFrom(deps, ids, order, at) by {
      forall k | 0 <= k < |order| ensures order[k].res.lid.base == ids[at[k]] {
        assert ids[at[k]] in raw;
      }
    }
    BuiltOrderRespectsAfter(raw, deps, ids, order, at);
    forall k | 0 <= k < |order| ensures order[k].res.nature.Object? || order[k].res.nature.SignalWait? {
      assert ids[spots[k].a] in raw;
    }
  }

  lemma DifferentParts(me: StackName, raw: seq<Id>, ids: seq<Id>, builds: Builds, s: Spot, t: Spot)
    requires Distinct(ids) && (forall x :: x in ids ==> x in raw) && SoundBuilds(me, raw, builds)
    requires At(ids, builds, s) && At(ids, builds, t) && Before(s, t)
    ensures ResourceAt(ids, builds, s).lid != ResourceAt(ids, builds, t).lid
    ensures IdentOf(me, ResourceAt(ids, builds, s)) != IdentOf(me, ResourceAt(ids, builds, t))
  {
    assert ids[s.a] in raw && ids[t.a] in raw;
  }

  /** Whenever a part of a template resource was made, since entry `from`, every part of every other
      template resource it depends on, directly or not, was ready. */
  ghost predicate OnTime(me: StackName, deps: map<Id, seq<Id>>, raw: seq<Id>, builds: Builds, journal: seq<Note>, from: nat) {
    forall n, x, p, y, q :: from <= n < |journal| && x in raw && 0 <= p < |PartsOf(builds, x)| && y in raw && 0 <= q < |PartsOf(builds, y)| ==>
      journal[n] == Made(IdentOf(me, PartsOf(builds, x)[p])) && NeedsOther(deps, x, y) ==> ReadyBy(journal, from, n, PartsOf(builds, y)[q].lid)
  }

  /** Template resource `x` depends on `y`, another. */
  ghost predicate NeedsOther(deps: map<Id, seq<Id>>, x: Id, y: Id) {
    y != x && DependsOn(deps, x, y)
  }

  /** Every part of the template has become ready. */
  ghost predicate AllPartsReady(raw: seq<Id>, builds: Builds, journal: seq<Note>, from: nat) {
    forall y, q :: y in raw && 0 <= q < |PartsOf(builds, y)| ==> ReadyBy(journal, from, |journal|, PartsOf(builds, y)[q].lid)
  }

  /** Every part that is an object is there, this stack's and as specified. */
  ghost predicate AllPartsThere(me: StackName, raw: seq<Id>, builds: Builds, view: Things) {
    forall y, q :: y in raw && 0 <= q < |PartsOf(builds, y)| && PartsOf(builds, y)[q].nature.Object? ==>
      var r := PartsOf(builds, y)[q];
      IdentOf(me, r) in view && view[IdentOf(me, r)] == Thing(Some(me), r.spec)
  }

  lemma TemplateOnTime(me: StackName, raw: seq<Id>, deps: map<Id, seq<Id>>, ids: seq<Id>, builds: Builds, order: seq<Built>, spots: seq<Spot>,
                       journal: seq<Note>, from: nat)
    requires Topological(raw, deps, ids) && SoundBuilds(me, raw, builds) && Follows(deps, ids, builds, order, spots, Spot(|ids|, 0))
    ensures InTime(me, order, journal, from) ==> OnTime(me, deps, raw, builds, journal, from)
    ensures AllReady(order, journal, from) ==> AllPartsReady(raw, builds, journal, from)
  {
    hide ReadyAfter, DependsOn, ReadyBy, IdentOf;
    if InTime(me, order, journal, from) {
      forall n, x, p, y, q | from <= n < |journal| && x in raw && 0 <= p < |PartsOf(builds, x)| && y in raw && 0 <= q < |PartsOf(builds, y)|
        && journal[n] == Made(IdentOf(me, PartsOf(builds, x)[p])) && NeedsOther(deps, x, y)
        ensures ReadyBy(journal, from, n, PartsOf(builds, y)[q].lid)
      {
        var k := BuiltAt(raw, deps, ids, builds, order, spots, x, p);
        var j := BuiltAt(raw, deps, ids, builds, order, spots, y, q);
        assert Depends(order[k], order[j]);
      }
    }
    if AllReady(order, journal, from) {
      forall y, q | y in raw && 0 <= q < |PartsOf(builds, y)| ensures ReadyBy(journal, from, |journal|, PartsOf(builds, y)[q].lid) {
        var j := BuiltAt(raw, deps, ids, builds, order, spots, y, q);
      }
    }
  }

  lemma BuiltAt(raw: seq<Id>, deps: map<Id, seq<Id>>, ids: seq<Id>, builds: Builds, order: seq<Built>, spots: seq<Spot>, y: Id, q: nat)
    returns (j: nat)
    requires Topological(raw, deps, ids) && Follows(deps, ids, builds, order, spots, Spot(|ids|, 0))
    requires y in raw && q < |PartsOf(builds, y)|
    ensures j < |order| && order[j].res == PartsOf(builds, y)[q] && forall x :: x in order[j].after <==> DependsOn(deps, y, x)
  {
    var a :| 0 <= a < |ids| && ids[a] == y;
    assert At(ids, builds, Spot(a, q));
    j :| 0 <= j < |spots| && spots[j] == Spot(a, q);
  }

  /** The names of everything the template is built into are free. */
  ghost predicate BuildsFree(me: StackName, v0: Things, raw: seq<Id>, builds: Builds) {
    forall y, q :: y in raw && 0 <= q < |PartsOf(builds, y)| && !PartsOf(builds, y)[q].nature.SignalWait? ==>
      IdentOf(me, PartsOf(builds, y)[q]) !in v0
  }

  lemma FreeTogether(me: StackName, v0: Things, raw: seq<Id>, deps: map<Id, seq<Id>>, ids: seq<Id>, builds: Builds, order: seq<Built>, spots: seq<Spot>)
    requires Topological(raw, deps, ids) && Follows(deps, ids, builds, order, spots, Spot(|ids|, 0))
    ensures NamesFree(me, v0, order) <==> BuildsFree(me, v0, raw, builds)
  {
    hide DependsOn;
    if NamesFree(me, v0, order) {
      forall y, q | y in raw && 0 <= q < |PartsOf(builds, y)| && !PartsOf(builds, y)[q].nature.SignalWait?
        ensures IdentOf(me, PartsOf(builds, y)[q]) !in v0
      {
        var j := BuiltAt(raw, deps, ids, builds, order, spots, y, q);
      }
    }
    if BuildsFree(me, v0, raw, builds) {
      forall k | 0 <= k < |order| && !order[k].res.nature.SignalWait? ensures IdentOf(me, order[k].res) !in v0 {
        assert ids[spots[k].a] in raw;
      }
    }
  }

  datatype Provisioned = Refused(stuck: seq<Id>) | Ran(outcome: Outcome)

  /** A template is refused, and the cluster left alone, exactly if its dependencies are circular.
      Otherwise, wherever it fails or dies, nothing was made before every part of all that the template
      says it depends on, directly or not, was ready; and at CREATE_COMPLETE, which when nothing fails is
      reached exactly if every name is free, everything is there and ready. */
  method CreateFromTemplate(c: Cluster, raw: seq<Id>, deps: map<Id, seq<Id>>, builds: Builds) returns (r: Provisioned)
    requires Distinct(raw) && (forall x :: x in deps ==> x in raw) && SoundBuilds(c.me, raw, builds)
    requires c.Guaranteed() && c.alive
    modifies c
    ensures c.Guaranteed() && old(c.journal) <= c.journal
    ensures r.Refused? <==> !Acyclic(raw, deps)
    ensures r.Refused? ==> c.things == old(c.things) && c.record == old(c.record) && forall x :: x in r.stuck <==> x in raw && Tangled(raw, deps, x)
    ensures OnTime(c.me, deps, raw, builds, c.journal, |old(c.journal)|)
    ensures r == Ran(Created) ==> AllPartsReady(raw, builds, c.journal, |old(c.journal)|) && AllPartsThere(c.me, raw, builds, c.View())
    ensures Flawless(old(c.Now()), c.Now()) ==>
              (r == Ran(Created) <==> Acyclic(raw, deps) && BuildsFree(c.me, old(c.View()), raw, builds) && (c.alone || c.met == old(c.met)))
    ensures Flawless(old(c.Now()), c.Now()) && r.Ran? && r != Ran(Created) ==> c.record.Some? && c.record.value.status.RolledBack?
  {
    hide Acyclic, Tangled, LexAtMost, Tracks, ThingsAfter, KeepsToItsOwn, Accounted, Seen, Later, OwnersRespected, Follows, Deployment.Sound, SoundBuilds,
      Topological, OnTime, AllPartsReady, AllPartsThere, AllReady, NamesFree, BuildsFree, Makes, AppliedOf;
    var o := Order(raw, deps);
    match o {
      case Circular(stuck) =>
        NothingOnTime(c.me, deps, raw, builds, c.journal);
        r := Refused(stuck);
      case Ordered(ids) =>
        var order, spots := BuildOrder(deps, ids, builds);
        BuiltIsSound(c.me, raw, deps, ids, builds, order, spots);
        FreeTogether(c.me, c.View(), raw, deps, ids, builds, order, spots);
        ghost var v0 := c.View();
        var d := new Deployment(c, order);
        var outcome := d.Run();
        TemplateOnTime(c.me, raw, deps, ids, builds, order, spots, c.journal, d.p.from);
        AllThere(c.me, raw, deps, ids, builds, order, spots, v0);
        r := Ran(outcome);
    }
  }

  lemma NothingOnTime(me: StackName, deps: map<Id, seq<Id>>, raw: seq<Id>, builds: Builds, journal: seq<Note>)
    ensures OnTime(me, deps, raw, builds, journal, |journal|)
  {
  }

  lemma AllThere(me: StackName, raw: seq<Id>, deps: map<Id, seq<Id>>, ids: seq<Id>, builds: Builds, order: seq<Built>, spots: seq<Spot>, v0: Things)
    requires Topological(raw, deps, ids) && Follows(deps, ids, builds, order, spots, Spot(|ids|, 0)) && Deployment.Sound(me, order)
    ensures AllPartsThere(me, raw, builds, v0 + Makes(me, AppliedOf(order)))
  {
    AppliedThere(me, order, |order|);
    assert order[..|order|] == order;
    hide DependsOn, Makes, AppliedOf, Deployment.Sound;
    forall y, q | y in raw && 0 <= q < |PartsOf(builds, y)| && PartsOf(builds, y)[q].nature.Object?
      ensures var id, m := IdentOf(me, PartsOf(builds, y)[q]), Makes(me, AppliedOf(order));
              id in m && m[id] == Thing(Some(me), PartsOf(builds, y)[q].spec)
    {
      var j := BuiltAt(raw, deps, ids, builds, order, spots, y, q);
    }
  }
}
