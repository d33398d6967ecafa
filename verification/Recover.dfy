/** Recovery of an operation whose process died, from its persisted record alone; and delete,
    which recovery resumes. */
module Recover {
  import opened Wrappers
  import opened Stack
  import opened History
  import opened Cluster
  import opened Teardown

  /** Each thing once, first entry wins. */
  function Union(me: StackName, rs: seq<Resource>, seen: set<Ident>): seq<Resource> {
    if rs == [] then []
    else
      var k := IdentOf(me, rs[0]);
      if k in seen then Union(me, rs[1..], seen) else [rs[0]] + Union(me, rs[1..], seen + {k})
  }

  /** An entry for the thing, waits included: what the union goes by. */
  ghost predicate Names(me: StackName, rs: seq<Resource>, id: Ident) {
    exists i :: 0 <= i < |rs| && IdentOf(me, rs[i]) == id
  }

  lemma NamesCons(me: StackName, r: Resource, rs: seq<Resource>, id: Ident)
    ensures Names(me, [r] + rs, id) <==> IdentOf(me, r) == id || Names(me, rs, id)
  {
    var all := [r] + rs;
    assert all[0] == r;
    if i :| 0 <= i < |rs| && IdentOf(me, rs[i]) == id {
      assert all[i + 1] == rs[i];
    }
  }

  /** The union repeats nothing, adds nothing and loses nothing. */
  lemma {:induction false} UnionIsFaithful(me: StackName, rs: seq<Resource>, seen: set<Ident>)
    ensures DistinctIdents(me, Union(me, rs, seen))
    ensures forall r :: r in Union(me, rs, seen) ==> r in rs
    ensures forall id :: Names(me, Union(me, rs, seen), id) <==> Names(me, rs, id) && id !in seen
    decreases |rs|
  {
    if rs != [] {
      var k, tail := IdentOf(me, rs[0]), rs[1..];
      assert rs == [rs[0]] + tail;
      var seen' := if k in seen then seen else seen + {k};
      UnionIsFaithful(me, tail, seen');
      var u := Union(me, tail, seen');
      forall id
        ensures Names(me, Union(me, rs, seen), id) <==> Names(me, rs, id) && id !in seen
      {
        NamesCons(me, rs[0], tail, id);
        NamesCons(me, rs[0], u, id);
      }
      if k !in seen {
        assert Names(me, u, k) <==> Names(me, tail, k) && k !in seen';
        forall i, j | 0 <= i < j < |[rs[0]] + u|
          ensures IdentOf(me, ([rs[0]] + u)[i]) != IdentOf(me, ([rs[0]] + u)[j])
        {
          if i == 0 {
            assert IdentOf(me, u[j - 1]) == k ==> Names(me, u, k);
          }
        }
      }
    }
  }

  /** unionResources. */
  method UnionResources(me: StackName, a: seq<Resource>, b: seq<Resource>) returns (out: seq<Resource>)
    ensures out == Union(me, a + b, {})
  {
    var seen: set<Ident> := {};
    out := [];
    var all := a + b;
    assert all[0..] == all;
    hide *;
    for n := 0 to |all|
      invariant out + Union(me, all[n..], seen) == Union(me, all, {})
    {
      UnionStep(me, all, n, seen);
      var k := IdentOf(me, all[n]);
      if k !in seen {
        seen := seen + {k};
        AppendFirst(out, all[n], Union(me, all[n + 1..], seen));
        out := out + [all[n]];
      }
    }
    UnionNone(me, all, seen);
  }

  lemma AppendFirst(out: seq<Resource>, r: Resource, rest: seq<Resource>)
    ensures out + ([r] + rest) == out + [r] + rest
  {
  }

  lemma UnionStep(me: StackName, all: seq<Resource>, n: nat, seen: set<Ident>)
    requires n < |all|
    ensures var k := IdentOf(me, all[n]);
            Union(me, all[n..], seen) ==
              if k in seen then Union(me, all[n + 1..], seen) else [all[n]] + Union(me, all[n + 1..], seen + {k})
  {
    assert all[n..][0] == all[n] && all[n..][1..] == all[n + 1..];
  }

  lemma UnionNone(me: StackName, all: seq<Resource>, seen: set<Ident>)
    ensures Union(me, all[|all|..], seen) == []
  {
  }

  /** Everything a record names, as a rollback goes through it. */
  ghost function Listed(me: StackName, rec: Record): seq<Resource> {
    Union(me, rec.resources + rec.pending, {})
  }

  /** Two entries for one thing agree on what kind of thing it is. */
  ghost predicate Coherent(me: StackName, rec: Record) {
    forall r, r' :: r in rec.resources + rec.pending && r' in rec.resources + rec.pending && IdentOf(me, r) == IdentOf(me, r') ==>
      r.nature == r'.nature
  }

  /** The record still names every thing of this stack that the earlier record named and that
      still exists. */
  ghost predicate NothingLost(me: StackName, view: Things, before: Record, after: Record) {
    forall r :: (r in before.resources || r in before.pending) && Tracked(r) && HasMine(me, view, r) ==>
      exists r' :: (r' in after.resources || r' in after.pending) && IdentOf(me, r') == IdentOf(me, r)
  }

  /** None of what the record dooms is left with this stack's label. */
  ghost predicate RolledBackOf(me: StackName, view: Things, rec: Record) {
    forall r :: r in Listed(me, rec) && Tracked(r) && !r.policy.Retain? ==> !HasMine(me, view, r)
  }

  /** What no entry of the record keeps on rollback is not left with this stack's label. */
  ghost predicate RollbackDrops(me: StackName, view: Things, rec: Record) {
    forall r :: r in rec.resources + rec.pending && Tracked(r) && DropsAll(me, rec.resources + rec.pending, IdentOf(me, r), true) ==>
      !HasMine(me, view, r)
  }

  /** What every entry of the record keeps on rollback, or none names, is still there. */
  lemma ListedKeeps(me: StackName, rec: Record, before: Things, after: Things)
    requires ShrinksBy(before, after, Doomed(me, Listed(me, rec), true))
    ensures RetainedStay(me, rec.resources + rec.pending, before, after, true)
  {
    var all, list := rec.resources + rec.pending, Listed(me, rec);
    UnionIsFaithful(me, all, {});
    forall id | KeepsAll(me, all, id, true) ensures id !in Doomed(me, list, true) {
      forall i | 0 <= i < |list| && IdentOf(me, list[i]) == id ensures list[i].policy == Retain {
        assert list[i] in list && list[i] in all;
      }
    }
  }

  lemma ListedDrops(me: StackName, rec: Record, view: Things)
    requires Coherent(me, rec) && RolledBackOf(me, view, rec)
    ensures RollbackDrops(me, view, rec)
  {
    var all, list := rec.resources + rec.pending, Listed(me, rec);
    UnionIsFaithful(me, all, {});
    forall r | r in all && Tracked(r) && DropsAll(me, all, IdentOf(me, r), true) ensures !HasMine(me, view, r) {
      assert Names(me, all, IdentOf(me, r));
      var i :| 0 <= i < |list| && IdentOf(me, list[i]) == IdentOf(me, r);
      assert list[i] in list && list[i] in all && list[i].nature == r.nature;
      var k :| 0 <= k < |all| && all[k] == list[i];
      assert !list[i].policy.Retain?;
    }
  }

  predicate CreateUnsettled(rec: Record) {
    rec.status.InProgress? || rec.status.RollingBack?
  }

  /** Everything a completed rollback is to remove is gone, and nothing else. */
  ghost predicate Undone(me: StackName, before: Things, after: Things, rec: Record) {
    after == before - AllTaken(me, before, Listed(me, rec), true, true)
  }

  /** One attempt at recovering an interrupted create.  Whatever fails, and wherever the process
      dies again, nothing of another stack's is touched, nothing retained is removed, and the
      record keeps naming everything that is still to be removed.  It takes a failure or a death to
      stop it. */
  method RecoverCreate(c: Cluster) returns (ok: bool)
    requires c.record.Some? && CreateUnsettled(c.record.value) && Coherent(c.me, c.record.value)
    requires c.Guaranteed() && LogicalMine(c.me, c.View())
    modifies c
    ensures c.Guaranteed() && c.record.Some? && Later(old(c.Now()), c.Now(), c.quiet)
    ensures Flawless(old(c.Now()), c.Now()) ==> ok
    ensures c.record.value.status.RollbackFailed? ==> c.refusals > old(c.refusals) || c.deletes > old(c.deletes)
    ensures !ok && c.alive ==> c.refusals > old(c.refusals) || c.deletes > old(c.deletes)
    ensures !ok && c.alive && c.refusals == old(c.refusals) ==> c.record.value.status.RollbackFailed?
    ensures c.record.value.status == old(c.record).value.status && c.record.value.status.InProgress? ==> c.View() == old(c.View())
    ensures ShrinksBy(old(c.View()), c.View(), Doomed(c.me, Listed(c.me, old(c.record).value), true))
    ensures SparesOthers(c.me, old(c.View()), c.View())
    ensures NothingLost(c.me, c.View(), old(c.record).value, c.record.value)
    ensures c.record.value.status in {InProgress, RollingBack} ==>
              c.record.value.resources == old(c.record).value.resources && c.record.value.pending == old(c.record).value.pending
    ensures c.record.value.status in {InProgress, RollingBack, RolledBack, RollbackFailed}
    ensures ok ==> c.record.value.status.RolledBack? && c.refusals == old(c.refusals)
    ensures RetainedStay(c.me, old(c.record).value.resources + old(c.record).value.pending, old(c.View()), c.View(), true)
    ensures c.record.value.status.RolledBack? ==> RollbackDrops(c.me, c.View(), old(c.record).value)
    ensures c.record.value.status.RolledBack? ==>
              && RolledBackOf(c.me, c.View(), old(c.record).value)
              && (c.deletes == old(c.deletes) ==> Undone(c.me, old(c.View()), c.View(), old(c.record).value))
              && c.record.value.pending == []
              && forall r :: r in c.record.value.resources ==> r.policy.Retain?
  {
    hide Tracks, ThingsAfter, KeepsToItsOwn, Accounted, Seen, Later, AllTaken, Doomed, ShrinksBy, SparesOthers, NothingLost, RolledBackOf,
      Undone, Coherent, LogicalMine, Listed, RetainedStay, RollbackDrops;
    ghost var rec0, h0 := c.record.value, c.Now();
    var read, found := c.ReadRecord();
    ghost var h1 := c.Now();
    NothingYet(h0, c.quiet);
    LaterOn(h0, h0, h1, c.quiet);
    ghost var v0 := c.View();
    RewrittenRecord(c.me, v0, rec0);
    ListedKeeps(c.me, rec0, v0, v0);
    if !read {
      return false;
    }
    var rec := found.value;
    var wrote := c.WriteRecord(rec.(status := RollingBack));
    ghost var h2 := c.Now();
    LaterOn(h0, h1, h2, c.quiet);
    if !wrote {
      return false;
    }
    ok := UndoListed(c, rec);
    LaterOn(h0, h2, c.Now(), c.quiet);
    ListedKeeps(c.me, rec0, v0, c.View());
    if c.record.value.status.RolledBack? {
      ListedDrops(c.me, rec0, c.View());
    }
  }

  /** The teardown of everything the record names, and its outcome recorded. */
  method UndoListed(c: Cluster, rec: Record) returns (ok: bool)
    requires Coherent(c.me, rec) && c.record == Some(rec.(status := RollingBack))
    requires c.Guaranteed() && LogicalMine(c.me, c.View())
    modifies c
    ensures c.Guaranteed() && c.record.Some? && Later(old(c.Now()), c.Now(), c.quiet)
    ensures Flawless(old(c.Now()), c.Now()) ==> ok
    ensures c.record.value.status.RollbackFailed? ==> c.refusals > old(c.refusals) || c.deletes > old(c.deletes)
    ensures !ok && c.alive ==> c.refusals > old(c.refusals) || c.deletes > old(c.deletes)
    ensures !ok && c.alive && c.refusals == old(c.refusals) ==> c.record.value.status.RollbackFailed?
    ensures ShrinksBy(old(c.View()), c.View(), Doomed(c.me, Listed(c.me, rec), true)) && SparesOthers(c.me, old(c.View()), c.View())
    ensures NothingLost(c.me, c.View(), rec, c.record.value)
    ensures c.record == old(c.record) || c.record.value.status in {RolledBack, RollbackFailed}
    ensures ok ==> c.record.value.status.RolledBack? && c.refusals == old(c.refusals)
    ensures c.record.value.status.RolledBack? ==>
              && RolledBackOf(c.me, c.View(), rec)
              && (c.deletes == old(c.deletes) ==> Undone(c.me, old(c.View()), c.View(), rec))
              && c.record.value.pending == [] && forall r :: r in c.record.value.resources ==> r.policy.Retain?
  {
    var list := UnionResources(c.me, rec.resources, rec.pending);
    UnionIsFaithful(c.me, rec.resources + rec.pending, {});
    assert list == Listed(c.me, rec);
    hide Tracks, ThingsAfter, KeepsToItsOwn, Accounted, Seen, Later, AllTaken, Doomed, Listed, Union, ShrinksBy, SparesOthers, NothingLost,
      RolledBackOf, Coherent, IsGone, DistinctIdents, LogicalMine;
    ghost var h0 := c.Now();
    NothingYet(h0, c.quiet);
    var remaining, failed := TeardownAll(c, list, true, true);
    ghost var h1 := c.Now();
    LaterOn(h0, h0, h1, c.quiet);
    TeardownKeepsRecord(c.me, c.View(), rec, list, remaining);
    if failed {
      var _ := c.WriteRecord(Record(RollbackFailed, remaining, []));
      LaterOn(h0, h1, c.Now(), c.quiet);
      return false;
    }
    TeardownFinishes(c.me, c.View(), rec, list, remaining);
    ok := c.WriteRecord(Record(RolledBack, remaining, []));
    LaterOn(h0, h1, c.Now(), c.quiet);
  }

  lemma TeardownKeepsRecord(me: StackName, view: Things, rec: Record, list: seq<Resource>, remaining: seq<Resource>)
    requires list == Listed(me, rec)
    requires forall i :: 0 <= i < |list| && list[i] !in remaining ==> IsGone(me, view, list[i], true)
    requires Coherent(me, rec)
    ensures NothingLost(me, view, rec, rec.(status := RollingBack))
    ensures NothingLost(me, view, rec, Record(RolledBack, remaining, []))
    ensures NothingLost(me, view, rec, Record(RollbackFailed, remaining, []))
  {
    UnionIsFaithful(me, rec.resources + rec.pending, {});
    forall r | (r in rec.resources || r in rec.pending) && Tracked(r) && HasMine(me, view, r)
      ensures exists r' :: r' in remaining && IdentOf(me, r') == IdentOf(me, r)
    {
      assert r in rec.resources + rec.pending;
      assert Names(me, rec.resources + rec.pending, IdentOf(me, r));
      var i :| 0 <= i < |list| && IdentOf(me, list[i]) == IdentOf(me, r);
      assert list[i] in remaining;
    }
  }

  lemma TeardownFinishes(me: StackName, view: Things, rec: Record, list: seq<Resource>, remaining: seq<Resource>)
    requires list == Listed(me, rec)
    requires forall i :: 0 <= i < |list| && list[i] !in remaining ==> IsGone(me, view, list[i], true)
    requires forall r :: r in remaining ==> r.policy.Retain?
    ensures RolledBackOf(me, view, rec)
  {
  }

  /** A thing that was there and is named by the record's doomed half is gone, any other is still there. */
  ghost predicate LeftBy(me: StackName, before: Things, after: Things, rec: Record) {
    forall id :: id in before && id.Named? ==>
      (id in after <==> !(Mine(me, before[id]) && id in Doomed(me, Listed(me, rec), true)))
  }

  /** Recovery interrupted and run again, any number of times.  In the end either the create is
      rolled back, with only kept resources of it left, or the record still names everything
      of the stack that remains; and in neither case was anything removed but this stack's own
      things that the record named for removal.  With one attempt more than the process dies, and
      nothing refused, it does end rolled back.  An object with this stack's label, made by the
      interrupted create or left by an earlier stack of the name, is then still there if and only
      if the record does not name it for removal. */
  method RecoverRepeatedly(c: Cluster, attempts: nat) returns (done: bool)
    requires c.record.Some? && CreateUnsettled(c.record.value) && Coherent(c.me, c.record.value)
    requires c.Guaranteed() && LogicalMine(c.me, c.View())
    modifies c
    ensures c.Guaranteed() && c.record.Some? && OwnersRespected(c.start, c.history)
    ensures c.refusals == old(c.refusals) && c.deletes == old(c.deletes) && attempts > c.crashes - old(c.crashes) ==> done
    ensures c.quiet ==> Undisturbed(old(c.Now()), c.Now())
    ensures old(c.refusals) <= c.refusals && old(c.deletes) <= c.deletes && old(c.crashes) <= c.crashes && old(c.met) <= c.met
    ensures c.record.value.status in {InProgress, RollingBack, RolledBack, RollbackFailed}
    ensures ShrinksBy(old(c.View()), c.View(), Doomed(c.me, Listed(c.me, old(c.record).value), true))
    ensures SparesOthers(c.me, old(c.View()), c.View())
    ensures NothingLost(c.me, c.View(), old(c.record).value, c.record.value)
    ensures done <==> c.record.value.status.RolledBack?
    ensures RetainedStay(c.me, old(c.record).value.resources + old(c.record).value.pending, old(c.View()), c.View(), true)
    ensures done ==> RollbackDrops(c.me, c.View(), old(c.record).value)
    ensures done ==>
              && RolledBackOf(c.me, c.View(), old(c.record).value)
              && LeftBy(c.me, old(c.View()), c.View(), old(c.record).value)
              && (c.deletes == old(c.deletes) ==> Undone(c.me, old(c.View()), c.View(), old(c.record).value))
              && forall r :: r in c.record.value.resources + c.record.value.pending ==> r.policy.Retain?
  {
    hide Tracks, ThingsAfter, KeepsToItsOwn, Accounted, Seen, Later, AllTaken, Doomed, OwnersRespected, ShrinksBy, SparesOthers, NothingLost,
      RolledBackOf, Undone, LeftBy, Listed, RetainedStay, RollbackDrops;
    ghost var rec0, v0, h0 := c.record.value, c.View(), c.Now();
    RewrittenRecord(c.me, v0, rec0);
    var n := 0;
    while n < attempts && CreateUnsettled(c.record.value)
      invariant n <= attempts && c.Guaranteed() && c.record.Some? && LogicalMine(c.me, c.View())
      invariant c.record.value.status in {InProgress, RollingBack, RolledBack, RollbackFailed}
      invariant h0.refusals <= c.refusals && h0.deletes <= c.deletes && h0.crashes <= c.crashes && h0.met <= c.met
      invariant c.quiet ==> Undisturbed(h0, c.Now())
      invariant ShrinksBy(v0, c.View(), Doomed(c.me, Listed(c.me, rec0), true))
      invariant SparesOthers(c.me, v0, c.View())
      invariant CreateUnsettled(c.record.value) ==>
                  && c.record.value.resources == rec0.resources && c.record.value.pending == rec0.pending
                  && (c.refusals == h0.refusals && c.deletes == h0.deletes ==> n <= c.crashes - h0.crashes)
      invariant !CreateUnsettled(c.record.value) && c.refusals == h0.refusals && c.deletes == h0.deletes ==> c.record.value.status.RolledBack?
      invariant NothingLost(c.me, c.View(), rec0, c.record.value)
      invariant c.record.value.status.RolledBack? ==>
                  && RolledBackOf(c.me, c.View(), rec0)
                  && (c.deletes == h0.deletes ==> Undone(c.me, v0, c.View(), rec0))
                  && forall r :: r in c.record.value.resources + c.record.value.pending ==> r.policy.Retain?
      decreases attempts - n
    {
      ghost var h := c.Now();
      c.Restart();
      ghost var rec, v, h1 := c.record.value, c.View(), c.Now();
      ListedSame(c.me, rec, rec0);
      var ok := RecoverCreate(c);
      AttemptFacts(h0, h, h1, c.Now(), c.quiet);
      Shrunk(c.me, v0, v, c.View(), rec0, rec, c.record.value);
      n := n + 1;
    }
    done := c.record.value.status.RolledBack?;
    c.HistoryRespected();
    ListedKeeps(c.me, rec0, v0, c.View());
    if done {
      ListedDrops(c.me, rec0, c.View());
      LeftoverIff(c.me, v0, c.View(), rec0);
    }
  }

  /** Apart from a restart, nothing went wrong. */
  ghost predicate Undisturbed(h0: Health, h1: Health) {
    h1.crashes == h0.crashes && h1.refusals == h0.refusals && h1.deletes == h0.deletes && h1.cut == h0.cut
  }

  lemma AttemptFacts(h0: Health, h: Health, h1: Health, h2: Health, quiet: bool)
    requires h1 == h.(alive := true) && Later(h1, h2, quiet)
    ensures h.crashes <= h2.crashes && h.refusals <= h2.refusals && h.deletes <= h2.deletes && h.met <= h2.met
    ensures h2.refusals == h.refusals && h2.deletes == h.deletes && h2.crashes == h.crashes ==> Flawless(h1, h2)
    ensures h2.crashes == h.crashes ==> h2.alive
    ensures quiet && Undisturbed(h0, h) ==> Undisturbed(h0, h2)
  {
  }

  lemma ListedSame(me: StackName, rec: Record, rec0: Record)
    requires rec.resources == rec0.resources && rec.pending == rec0.pending
    ensures Listed(me, rec) == Listed(me, rec0)
  {
  }

  lemma RewrittenRecord(me: StackName, view: Things, rec: Record)
    ensures ShrinksBy(view, view, Doomed(me, Listed(me, rec), true)) && SparesOthers(me, view, view)
    ensures NothingLost(me, view, rec, rec) && NothingLost(me, view, rec, rec.(status := RollingBack))
  {
  }

  /** One attempt after the others. */
  lemma Shrunk(me: StackName, v0: Things, v: Things, after: Things, rec0: Record, rec: Record, rec': Record)
    requires Listed(me, rec) == Listed(me, rec0) && rec.resources == rec0.resources && rec.pending == rec0.pending
    requires LogicalMine(me, v)
    requires ShrinksBy(v0, v, Doomed(me, Listed(me, rec0), true)) && SparesOthers(me, v0, v)
    requires ShrinksBy(v, after, Doomed(me, Listed(me, rec), true)) && SparesOthers(me, v, after)
    ensures ShrinksBy(v0, after, Doomed(me, Listed(me, rec0), true)) && SparesOthers(me, v0, after) && LogicalMine(me, after)
    ensures NothingLost(me, after, rec, rec') ==> NothingLost(me, after, rec0, rec')
    ensures RolledBackOf(me, after, rec) ==> RolledBackOf(me, after, rec0)
    ensures Undone(me, v, after, rec) ==> Undone(me, v0, after, rec0)
  {
    hide Listed;
  }

  /** What recovery removes is exactly what the record names: a leftover of an earlier stack of the
      name goes with the rest if and only if the record names it for removal. */
  lemma LeftoverIff(me: StackName, before: Things, after: Things, rec: Record)
    requires ShrinksBy(before, after, Doomed(me, Listed(me, rec), true)) && RolledBackOf(me, after, rec) && SparesOthers(me, before, after)
    ensures LeftBy(me, before, after, rec)
  {
    var list := Listed(me, rec);
    forall id | id in before && id.Named?
      ensures id in after <==> !(Mine(me, before[id]) && id in Doomed(me, list, true))
    {
      if id in Doomed(me, list, true) {
        var i :| 0 <= i < |list| && !Kept(list[i], true) && !list[i].nature.SignalWait? && IdentOf(me, list[i]) == id;
        assert list[i] in list && Tracked(list[i]);
      }
    }
  }

  // ---------------------------------------------------------------- delete

  /** Every object the record would have deleted by name is this stack's, as when the create
      completed; and no pending entry repeats one of them. */
  ghost predicate FullyOurs(me: StackName, view: Things, rec: Record) {
    AllOurs(me, view, rec.resources, false) && Doomed(me, rec.resources, false) !! Doomed(me, rec.pending, false)
  }

  /** A resource to be deleted by name is called like an object of another's. */
  ghost predicate NamesOthers(me: StackName, things: Things, rs: seq<Resource>) {
    exists i :: 0 <= i < |rs| && rs[i].policy.Delete? && rs[i].nature.Object?
      && IdentOf(me, rs[i]) in things && !Mine(me, things[IdentOf(me, rs[i])])
  }

  ghost predicate OthersSpared(me: StackName, before: Things, after: Things) {
    forall id :: id in before && !Mine(me, before[id]) ==> id in after
  }

  /** What a delete in which nothing fails removes. */
  ghost function Destroyed(me: StackName, view: Things, rec: Record): Things {
    view - AllTaken(me, view, rec.pending, true, false) - Doomed(me, rec.resources, false)
  }

  /** Of what the record names, what the deletion policies do not keep is gone: by name, or, where it may
      never have been made, if it was this stack's. */
  ghost predicate AllDropped(me: StackName, rec: Record, view: Things) {
    DroppedGone(me, rec.resources, view, false, false) && DroppedGone(me, rec.pending, view, true, false)
  }

  lemma BothKeep(me: StackName, a: seq<Resource>, b: seq<Resource>, before: Things, after: Things)
    requires ShrinksBy(before, after, Doomed(me, a, false) + Doomed(me, b, false))
    ensures RetainedStay(me, a + b, before, after, false)
  {
    forall id | KeepsAll(me, a + b, id, false) ensures id !in Doomed(me, a, false) && id !in Doomed(me, b, false) {
      assert forall i :: 0 <= i < |a| ==> (a + b)[i] == a[i];
      assert forall i :: 0 <= i < |b| ==> (a + b)[|a| + i] == b[i];
    }
  }

  lemma DestroyedDrops(me: StackName, v0: Things, rec: Record)
    requires LogicalMine(me, v0)
    ensures AllDropped(me, rec, Destroyed(me, v0, rec))
  {
    TakenDrops(me, rec.pending, v0, true, false);
    var v1 := v0 - AllTaken(me, v0, rec.pending, true, false);
    DoomedDrops(me, rec.resources, v1, false);
    hide AllTaken, Doomed, DropsAll;
    assert forall id :: id in Destroyed(me, v0, rec) ==> id in v1 && v1[id] == Destroyed(me, v0, rec)[id];
  }

  /** Destroy.  Termination or deletion protection, or a Snapshot policy, refuses it outright.  Interrupted-operation leftovers (Pending) are deleted only where the label is this
      stack's; Resources are deleted by name.  It takes a failure to keep it from completing; and on a
      cluster it has to itself a completed delete spares every object of others if and only if no
      resource it deletes by name is called like one. */
  method Destroy(c: Cluster, protected: bool) returns (ok: bool)
    requires c.record.Some? && LogicalMine(c.me, c.View()) && c.Logged()
    requires DistinctIdents(c.me, c.record.value.resources) && DistinctIdents(c.me, c.record.value.pending)
    modifies c
    ensures c.Logged() && Later(old(c.Now()), c.Now(), c.quiet)
    ensures protected ==> !ok && c.View() == old(c.View()) && c.record == old(c.record)
    ensures !ok ==> c.record.Some? && c.record.value.status in {old(c.record).value.status, Deleting, DeleteFailed}
    ensures Flawless(old(c.Now()), c.Now()) && !protected ==> ok && c.record.None?
    ensures !ok && !protected && c.alive && c.refusals == old(c.refusals) ==> c.record.Some? && c.record.value.status.DeleteFailed?
    ensures ok && c.alone ==> (OthersSpared(c.me, old(c.things), c.things) <==> !NamesOthers(c.me, old(c.things), old(c.record).value.resources))
    ensures var rec := old(c.record).value;
            && ShrinksBy(old(c.View()), c.View(), Doomed(c.me, rec.resources, false) + Doomed(c.me, rec.pending, false))
            && (old(c.Guaranteed()) && FullyOurs(c.me, old(c.View()), rec) ==> c.Guaranteed())
            && (ok ==> forall r :: r in rec.resources && Tracked(r) && r.policy.Delete? ==> IdentOf(c.me, r) !in c.View())
            && RetainedStay(c.me, rec.resources + rec.pending, old(c.View()), c.View(), false)
            && (Flawless(old(c.Now()), c.Now()) && !protected ==> c.View() == Destroyed(c.me, old(c.View()), rec) && AllDropped(c.me, rec, c.View()))
            && (c.record.Some? ==> NothingLost(c.me, c.View(), rec, c.record.value))
  {
    hide Tracks, ThingsAfter, KeepsToItsOwn, Accounted, Seen, Later, AllTaken, Doomed, NamesOthers, OthersSpared, Destroyed, RetainedStay, AllDropped,
      DroppedGone;
    ghost var v0, t0, h0 := c.View(), c.things, c.Now();
    NothingYet(h0, c.quiet);
    ghost var rec0 := c.record.value;
    BothKeep(c.me, rec0.resources, rec0.pending, v0, v0);
    var read, found := c.ReadRecord();
    ghost var h1 := c.Now();
    LaterOn(h0, h0, h1, c.quiet);
    if !read || protected {
      return false;
    }
    var rec := found.value;
    var wrote := c.WriteRecord(rec.(status := Deleting));
    ghost var h2 := c.Now();
    LaterOn(h0, h1, h2, c.quiet);
    if !wrote {
      return false;
    }
    assert c.alone ==> c.things == t0;
    ok := DestroyListed(c, rec);
    ghost var h3 := c.Now();
    LaterOn(h0, h2, h3, c.quiet);
    if ok {
      c.DeleteRecord();
      LaterOn(h0, h3, c.Now(), c.quiet);
    }
  }

  /** Both halves of the record torn down; a failure is recorded with what is left. */
  method DestroyListed(c: Cluster, rec: Record) returns (ok: bool)
    requires c.record.Some? && LogicalMine(c.me, c.View()) && c.Logged()
    requires DistinctIdents(c.me, rec.resources) && DistinctIdents(c.me, rec.pending)
    requires c.record == Some(rec.(status := Deleting))
    modifies c
    ensures c.Logged() && Later(old(c.Now()), c.Now(), c.quiet) && c.record.Some? && c.record.value.status in {Deleting, DeleteFailed}
    ensures RetainedStay(c.me, rec.resources + rec.pending, old(c.View()), c.View(), false)
    ensures Flawless(old(c.Now()), c.Now()) ==> ok && c.View() == Destroyed(c.me, old(c.View()), rec) && AllDropped(c.me, rec, c.View())
    ensures !ok && c.alive && c.refusals == old(c.refusals) ==> c.record.value.status.DeleteFailed?
    ensures ok && c.alone ==> (OthersSpared(c.me, old(c.things), c.things) <==> !NamesOthers(c.me, old(c.things), rec.resources))
    ensures ShrinksBy(old(c.View()), c.View(), Doomed(c.me, rec.resources, false) + Doomed(c.me, rec.pending, false))
    ensures old(c.Guaranteed()) && FullyOurs(c.me, old(c.View()), rec) ==> c.Guaranteed()
    ensures ok ==> forall r :: r in rec.resources && Tracked(r) && r.policy.Delete? ==> IdentOf(c.me, r) !in c.View()
    ensures NothingLost(c.me, c.View(), rec, c.record.value)
  {
    hide Tracks, ThingsAfter, KeepsToItsOwn, Accounted, Seen, Later, AllTaken, Doomed, NamesOthers, OthersSpared, Destroyed, RetainedStay, AllDropped,
      DroppedGone;
    ghost var v0, t0, h2 := c.View(), c.things, c.Now();
    NothingYet(h2, c.quiet);
    var pendingLeft, perr := TeardownAll(c, rec.pending, true, false);
    ghost var v1, h3 := c.View(), c.Now();
    LaterOn(h2, h2, h3, c.quiet);
    BothKeep(c.me, rec.resources, rec.pending, v0, v1);
    if perr {
      var _ := c.WriteRecord(Record(DeleteFailed, rec.resources, pendingLeft));
      LaterOn(h2, h3, c.Now(), c.quiet);
      return false;
    }
    OursAfter(c.me, v0, v1, rec);
    var remaining, terr := TeardownAll(c, rec.resources, false, false);
    ghost var v2, h4 := c.View(), c.Now();
    LaterOn(h2, h3, h4, c.quiet);
    BothKeep(c.me, rec.resources, rec.pending, v0, v2);
    PendingStillGone(c.me, v1, v2, Doomed(c.me, rec.resources, false), rec.pending, pendingLeft);
    if terr {
      var _ := c.WriteRecord(Record(DeleteFailed, remaining, pendingLeft));
      LaterOn(h2, h4, c.Now(), c.quiet);
      return false;
    }
    DestroyedIs(c.me, v0, v1, v2, rec);
    DestroyedDrops(c.me, v0, rec);
    AloneSeesAll(c.me, c.alone, t0, v0);
    AloneSeesAll(c.me, c.alone, c.things, v2);
    if c.alone {
      GoneByName(c.me, v2, rec.resources, remaining);
      SparedIff(c.me, v0, v1, v2, rec);
    }
    ok := true;
  }

  lemma GoneByName(me: StackName, view: Things, rs: seq<Resource>, remaining: seq<Resource>)
    requires forall i :: 0 <= i < |rs| && rs[i] !in remaining ==> IsGone(me, view, rs[i], false)
    requires forall r :: r in remaining ==> Kept(r, false)
    ensures forall r :: r in rs && Tracked(r) && r.policy.Delete? ==> IdentOf(me, r) !in view
  {
  }

  lemma AloneSeesAll(me: StackName, alone: bool, things: Things, view: Things)
    requires view == Seen(me, alone, things)
    ensures alone ==> view == things
  {
  }

  lemma DestroyedIs(me: StackName, v0: Things, v1: Things, v2: Things, rec: Record)
    requires LogicalMine(me, v0)
    ensures v1 == v0 - AllTaken(me, v0, rec.pending, true, false) && v2 == v1 - AllTaken(me, v1, rec.resources, false, false) ==>
              v2 == Destroyed(me, v0, rec)
  {
  }

  lemma SparedIff(me: StackName, v0: Things, v1: Things, v2: Things, rec: Record)
    requires LogicalMine(me, v0)
    requires ShrinksBy(v0, v1, Doomed(me, rec.pending, false)) && SparesOthers(me, v0, v1)
    requires ShrinksBy(v1, v2, Doomed(me, rec.resources, false))
    requires forall r :: r in rec.resources && Tracked(r) && r.policy.Delete? ==> IdentOf(me, r) !in v2
    ensures OthersSpared(me, v0, v2) <==> !NamesOthers(me, v0, rec.resources)
  {
    var rs := rec.resources;
    if NamesOthers(me, v0, rs) {
      var i :| 0 <= i < |rs| && rs[i].policy.Delete? && rs[i].nature.Object? && IdentOf(me, rs[i]) in v0 && !Mine(me, v0[IdentOf(me, rs[i])]);
      assert rs[i] in rs && IdentOf(me, rs[i]) !in v2;
    } else {
      assert forall id :: id in v0 && !Mine(me, v0[id]) && id in Doomed(me, rs, false) ==> id.Named?;
    }
  }

  lemma OursAfter(me: StackName, before: Things, after: Things, rec: Record)
    requires ShrinksBy(before, after, Doomed(me, rec.pending, false))
    ensures FullyOurs(me, before, rec) ==> AllOurs(me, after, rec.resources, false)
  {
    forall i | 0 <= i < |rec.resources| && !Kept(rec.resources[i], false) && rec.resources[i].nature.Object?
      ensures IdentOf(me, rec.resources[i]) in Doomed(me, rec.resources, false)
    {
    }
  }

  lemma PendingStillGone(me: StackName, before: Things, after: Things, doomed: set<Ident>, pending: seq<Resource>, left: seq<Resource>)
    requires ShrinksBy(before, after, doomed)
    requires forall i :: 0 <= i < |pending| && pending[i] !in left ==> IsGone(me, before, pending[i], true)
    ensures forall i :: 0 <= i < |pending| && pending[i] !in left ==> IsGone(me, after, pending[i], true)
  {
  }

  /** recoverDelete: the delete is resumed, and settled as failed if it cannot finish. */
  method RecoverDelete(c: Cluster, protected: bool) returns (ok: bool)
    requires c.record.Some? && LogicalMine(c.me, c.View())
    requires DistinctIdents(c.me, c.record.value.resources) && DistinctIdents(c.me, c.record.value.pending)
    requires c.Guaranteed() && FullyOurs(c.me, c.View(), c.record.value)
    modifies c
    ensures c.Guaranteed() && OwnersRespected(c.start, c.history) && Later(old(c.Now()), c.Now(), c.quiet)
    ensures Flawless(old(c.Now()), c.Now()) && !protected ==>
              && ok && c.record.None? && c.View() == Destroyed(c.me, old(c.View()), old(c.record).value)
              && AllDropped(c.me, old(c.record).value, c.View())
    ensures RetainedStay(c.me, old(c.record).value.resources + old(c.record).value.pending, old(c.View()), c.View(), false)
    ensures protected ==> !ok && c.View() == old(c.View())
    ensures !ok && !protected && c.alive && c.refusals == old(c.refusals) ==> c.record.Some? && c.record.value.status.DeleteFailed?
    ensures !ok && c.alive && old(c.record).value.status.Deleting? && c.record.Some? && !c.record.value.status.DeleteFailed? ==>
              c.refusals > old(c.refusals) + if protected then 0 else 1
    ensures var rec := old(c.record).value;
            && ShrinksBy(old(c.View()), c.View(), Doomed(c.me, rec.resources, false) + Doomed(c.me, rec.pending, false))
            && (ok ==> forall r :: r in rec.resources && Tracked(r) && r.policy.Delete? ==> IdentOf(c.me, r) !in c.View())
            && (c.record.Some? ==> NothingLost(c.me, c.View(), rec, c.record.value))
  {
    hide Tracks, ThingsAfter, KeepsToItsOwn, Accounted, Seen, Later, AllTaken, Doomed, Destroyed, OwnersRespected, NamesOthers, RetainedStay, AllDropped;
    ghost var h0 := c.Now();
    ok := Destroy(c, protected);
    ghost var h1 := c.Now();
    if !ok {
      NothingYet(h0, c.quiet);
      LaterOn(h0, h0, h1, c.quiet);
      var read, found := c.ReadRecord();
      ghost var h2 := c.Now();
      LaterOn(h0, h1, h2, c.quiet);
      if found.Some? && (found.value.status.Deleting? || found.value.status.DeleteFailed?) {
        var _ := c.WriteRecord(found.value.(status := DeleteFailed));
        LaterOn(h0, h2, c.Now(), c.quiet);
      }
    }
    c.HistoryRespected();
  }
}
