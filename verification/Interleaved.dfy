/** The interleaved create: resources are made one template resource at a time, each recorded
    as pending before it is made. */
module Interleaved {
  import opened Wrappers
  import opened Stack
  import opened History
  import opened Cluster
  import opened Ownership
  import opened Teardown
  import opened Readiness
  import opened Timing
  import opened Settling
  import Graph

  /** What a template resource has to be made of: nothing, something that cannot be translated, a
      thing made through a hook, a wait condition, or objects to apply. */
  datatype Make = Nothing | Untranslatable | Hook(res: Resource) | Condition(res: Resource) | Objects(rs: seq<Resource>)

  /** One template resource at its point in the order, with all that it depends on. */
  datatype Item = Item(base: Graph.Id, after: set<Graph.Id>, make: Make)

  function Parts(item: Item): seq<Resource> {
    match item.make
    case Hook(r) => [r]
    case Condition(r) => [r]
    case Objects(rs) => rs
    case _ => []
  }

  ghost predicate WellFormed(item: Item) {
    && (forall i :: 0 <= i < |Parts(item)| ==> Parts(item)[i].lid.base == item.base)
    && match item.make
       case Hook(r) => r.policy.Delete? && Hooked(r)
       case Condition(r) => r.nature.SignalWait?
       case Objects(rs) => forall i :: 0 <= i < |rs| ==> rs[i].nature.Object?
       case _ => true
  }

  ghost function ItemIdents(me: StackName, item: Item): set<Ident> {
    Idents(me, Parts(item))
  }

  ghost function ItemLids(item: Item): set<LogicalId> {
    set i | 0 <= i < |Parts(item)| :: Parts(item)[i].lid
  }

  ghost predicate DistinctParts(me: StackName, item: Item) {
    && DistinctIdents(me, Parts(item))
    && forall i, j :: 0 <= i < j < |Parts(item)| ==> Parts(item)[i].lid != Parts(item)[j].lid
  }

  /** The things and logical ids of a plan are distinct, within a template resource and across them; and
      what a template resource depends on comes before it. */
  ghost predicate SoundPlan(me: StackName, items: seq<Item>) {
    && (forall i :: 0 <= i < |items| ==> WellFormed(items[i]) && DistinctParts(me, items[i]))
    && (forall i, j :: 0 <= i < j < |items| ==> ItemIdents(me, items[i]) !! ItemIdents(me, items[j]))
    && (forall i, j :: 0 <= i < j < |items| ==> ItemLids(items[i]) !! ItemLids(items[j]))
    && (forall i, j :: 0 <= i < j < |items| ==> items[j].base !in items[i].after)
  }

  /** The parts of a template resource, each with what it depends on. */
  ghost function BuiltsOf(item: Item): (bs: seq<Built>)
    ensures |bs| == |Parts(item)|
  {
    seq(|Parts(item)|, q requires 0 <= q < |Parts(item)| => Built(Parts(item)[q], item.after))
  }

  /** The order the first items are made in. */
  ghost function AllBuilts(items: seq<Item>, n: nat): seq<Built>
    requires n <= |items|
  {
    if n == 0 then [] else AllBuilts(items, n - 1) + BuiltsOf(items[n - 1])
  }

  lemma {:induction false} BuiltFromItem(items: seq<Item>, n: nat, b: Built) returns (i: nat)
    requires n <= |items| && b in AllBuilts(items, n)
    ensures i < n && b in BuiltsOf(items[i])
  {
    if b in BuiltsOf(items[n - 1]) {
      i := n - 1;
    } else {
      i := BuiltFromItem(items, n - 1, b);
    }
  }

  lemma {:induction false} BuiltsPrefix(items: seq<Item>, n: nat, m: nat)
    requires n <= m <= |items|
    ensures AllBuilts(items, n) <= AllBuilts(items, m)
    decreases m - n
  {
    if n < m {
      BuiltsPrefix(items, n, m - 1);
    }
  }

  /** A sound plan is one to create in order. */
  lemma {:induction false} PlanIsOrderly(me: StackName, items: seq<Item>, n: nat)
    requires SoundPlan(me, items) && n <= |items|
    ensures Orderly(me, AllBuilts(items, n))
  {
    hide SoundPlan, IdentOf, Depends, BuiltsOf;
    if n > 0 {
      assert AllBuilts(items, n) == AllBuilts(items, n - 1) + BuiltsOf(items[n - 1]);
      hide Orderly, AllBuilts;
      PlanIsOrderly(me, items, n - 1);
      ItemOrderly(me, items, n - 1);
      PastApart(me, items, n - 1);
      OrderlyConcat(me, AllBuilts(items, n - 1), BuiltsOf(items[n - 1]));
    }
  }

  lemma PastApart(me: StackName, items: seq<Item>, n: nat)
    requires SoundPlan(me, items) && n < |items|
    ensures forall x, y :: x in AllBuilts(items, n) && y in BuiltsOf(items[n]) ==>
              x.res.lid != y.res.lid && IdentOf(me, x.res) != IdentOf(me, y.res) && !Depends(x, y)
  {
    hide SoundPlan, IdentOf, Depends, BuiltsOf, AllBuilts;
    forall x, y | x in AllBuilts(items, n) && y in BuiltsOf(items[n])
      ensures x.res.lid != y.res.lid && IdentOf(me, x.res) != IdentOf(me, y.res) && !Depends(x, y)
    {
      var i := BuiltFromItem(items, n, x);
      ItemsApart(me, items, i, n, x, y);
    }
  }

  lemma ItemsApart(me: StackName, items: seq<Item>, i: nat, j: nat, x: Built, y: Built)
    requires SoundPlan(me, items) && i < j < |items| && x in BuiltsOf(items[i]) && y in BuiltsOf(items[j])
    ensures x.res.lid != y.res.lid && IdentOf(me, x.res) != IdentOf(me, y.res) && !Depends(x, y)
  {
    var p :| 0 <= p < |Parts(items[i])| && Parts(items[i])[p] == x.res;
    var q :| 0 <= q < |Parts(items[j])| && Parts(items[j])[q] == y.res;
    assert x.res.lid in ItemLids(items[i]) && y.res.lid in ItemLids(items[j]);
    if !x.res.nature.SignalWait? && !y.res.nature.SignalWait? {
      assert IdentOf(me, x.res) in ItemIdents(me, items[i]) && IdentOf(me, y.res) in ItemIdents(me, items[j]);
    }
    assert WellFormed(items[j]);
  }

  lemma ItemOrderly(me: StackName, items: seq<Item>, n: nat)
    requires SoundPlan(me, items) && n < |items|
    ensures Orderly(me, BuiltsOf(items[n]))
  {
    var item, bs := items[n], BuiltsOf(items[n]);
    assert WellFormed(item) && DistinctParts(me, item);
    hide SoundPlan;
    assert forall i :: 0 <= i < |bs| ==> bs[i].res == Parts(item)[i] && Parts(item)[i].lid.base == item.base;
  }

  lemma OrderlyConcat(me: StackName, a: seq<Built>, b: seq<Built>)
    requires Orderly(me, a) && Orderly(me, b)
    requires forall x, y :: x in a && y in b ==> x.res.lid != y.res.lid && IdentOf(me, x.res) != IdentOf(me, y.res) && !Depends(x, y)
    ensures Orderly(me, a + b)
  {
    hide IdentOf, Depends;
    var all := a + b;
    forall i, j | 0 <= i < j < |all| ensures all[i].res.lid != all[j].res.lid && IdentOf(me, all[i].res) != IdentOf(me, all[j].res) {
      if j < |a| {
        assert all[i] == a[i] && all[j] == a[j];
      } else if i >= |a| {
        assert all[i] == b[i - |a|] && all[j] == b[j - |a|];
      } else {
        assert all[i] in a && all[j] in b;
      }
    }
    forall i, j | 0 <= i < |a| <= j < |all| ensures !Depends(all[i], all[j]) {
      assert all[i] in a && all[j] in b;
    }
    forall i, j | 0 <= i < |all| && 0 <= j < |all| && Depends(all[i], all[j]) ensures j < i {
      if i < |a| && j < |a| {
        assert all[i] == a[i] && all[j] == a[j];
      } else if i >= |a| && j >= |a| {
        assert all[i] == b[i - |a|] && all[j] == b[j - |a|];
      }
    }
  }

  /** Part number `n` is next. */
  lemma PartNext(item: Item, started: seq<Built>, order: seq<Built>, n: nat)
    requires started + BuiltsOf(item) <= order && n < |Parts(item)|
    ensures started + BuiltsOf(item)[..n] + [Built(Parts(item)[n], item.after)] <= order
    ensures BuiltsOf(item)[..n + 1] == BuiltsOf(item)[..n] + [Built(Parts(item)[n], item.after)]
  {
    var bs := BuiltsOf(item);
    assert bs[..n + 1] == bs[..n] + [bs[n]];
    assert started + bs[..n] + [bs[n]] == (started + bs)[..|started| + n + 1];
  }

  /** The next resource's thing is put as it specifies. */
  lemma PutSpecified(me: StackName, order: seq<Built>, started: seq<Built>, completed: set<LogicalId>, journal: seq<Note>, from: nat, b: Built,
                     v0: Things, view: Things)
    requires Turn(order, started, completed, journal, from, b) && !b.res.nature.SignalWait? && AsSpecified(me, ResourcesOf(order), v0, view)
    ensures AsSpecified(me, ResourcesOf(order), v0, view[IdentOf(me, b.res) := Thing(Some(me), b.res.spec)])
  {
    hide AsSpecified;
    assert (started + [b])[|started|] == b && order[|started|] == b;
    assert ResourcesOf(order)[|started|] == b.res;
    SpecifiedPut(me, ResourcesOf(order), v0, view, b.res);
  }

  lemma NothingNew(me: StackName, rs: seq<Resource>, v0: Things)
    ensures AsSpecified(me, rs, v0, v0)
  {
  }

  lemma {:induction false} PartsAreBuilts(items: seq<Item>, n: nat)
    requires n <= |items|
    ensures ResourcesOf(AllBuilts(items, n)) == AllParts(items, n)
  {
    if n > 0 {
      PartsAreBuilts(items, n - 1);
      var past, next := AllBuilts(items, n - 1), BuiltsOf(items[n - 1]);
      assert ResourcesOf(next) == Parts(items[n - 1]);
      assert ResourcesOf(past + next) == ResourcesOf(past) + ResourcesOf(next);
    }
  }

  /** When everything new is what the plan makes, every part is there as it specifies. */
  lemma MadeAsSpecified(me: StackName, items: seq<Item>, v0: Things, view: Things)
    requires SoundPlan(me, items) && AsSpecified(me, ResourcesOf(AllBuilts(items, |items|)), v0, view)
    requires New(v0, view) == Idents(me, AllParts(items, |items|))
    ensures AllAsSpecified(me, ResourcesOf(AllBuilts(items, |items|)), view)
  {
    PlanIsOrderly(me, items, |items|);
    PartsAreBuilts(items, |items|);
    var order := AllBuilts(items, |items|);
    var rs := ResourcesOf(order);
    OrderlyIdents(me, order);
    hide SoundPlan, AllBuilts, AllParts, Orderly, AsSpecified, ResourcesOf, DistinctIdents;
    forall i | 0 <= i < |rs| && !rs[i].nature.SignalWait?
      ensures IdentOf(me, rs[i]) in view && view[IdentOf(me, rs[i])] == Thing(Some(me), rs[i].spec)
    {
      assert IdentOf(me, rs[i]) in Idents(me, rs);
      OwnSpec(me, rs, v0, view, i);
    }
  }

  lemma OrderlyIdents(me: StackName, order: seq<Built>)
    requires Orderly(me, order)
    ensures DistinctIdents(me, ResourcesOf(order))
  {
  }

  lemma OnePart(item: Item)
    ensures |Parts(item)| == 1 ==> BuiltsOf(item) == [Built(Parts(item)[0], item.after)]
    ensures Parts(item) == [] ==> BuiltsOf(item) == []
  {
  }

  ghost function RecordIdents(me: StackName, rec: Option<Record>): set<Ident> {
    if rec.None? then {} else Idents(me, rec.value.resources) + Idents(me, rec.value.pending)
  }

  // ---------------------------------------------------------------- the operation's books

  /** The operation's local state: the record being built (as opposed to the one persisted), the
      two rollback lists, the objects it owns; and, for the proof, the plan's things gone
      through so far and the hook, if any, that failed. */
  datatype Books = Books(resources: seq<Resource>, applied: seq<Resource>, provisioned: seq<Resource>, owned: set<Ident>,
                         used: set<Ident>, failing: Option<Resource>)

  /** What there is that was not there before. */
  ghost function New(v0: Things, view: Things): set<Ident> {
    view.Keys - v0.Keys
  }

  /** What was there is untouched, and what is new is this stack's. */
  ghost predicate Untouched(me: StackName, v0: Things, view: Things) {
    && (forall id :: id in v0 ==> id in view && view[id] == v0[id] && (Belongs(me, id) ==> Mine(me, v0[id])))
    && (forall id :: id in view && id !in v0 ==> Mine(me, view[id]))
  }

  /** The thing of the failed hook: made all the same, or not. */
  ghost function Stray(me: StackName, failing: Option<Resource>): set<Ident> {
    if failing.None? then {} else {IdentOf(me, failing.value)}
  }

  ghost predicate ListOk(me: StackName, v0: Things, rs: seq<Resource>) {
    && DistinctIdents(me, rs)
    && (forall i :: 0 <= i < |rs| ==> !rs[i].nature.SignalWait? && IdentOf(me, rs[i]) !in v0)
  }

  /** There, or never anyone else's. */
  ghost predicate AllDeletable(me: StackName, view: Things, rs: seq<Resource>) {
    forall id :: id in Idents(me, rs) ==> id in view || Belongs(me, id)
  }

  /** Only a nested stack that failed is on a rollback list. */
  ghost predicate FailingOk(me: StackName, v0: Things, b: Books) {
    b.failing.Some? ==>
      var r, id := b.failing.value, IdentOf(me, b.failing.value);
      && Hooked(r) && r.policy.Delete? && Belongs(me, id) && id !in v0 && id in b.used
      && id !in Idents(me, b.resources) && id !in Idents(me, b.provisioned) && id !in b.owned
      && (id in Idents(me, b.applied) <==> r.nature.NestedStack?)
      && (forall i :: 0 <= i < |b.applied| && IdentOf(me, b.applied[i]) == id ==> !KeptOnRollback(b.applied[i]))
  }

  ghost predicate Bookish(me: StackName, v0: Things, b: Books) {
    && ListOk(me, v0, b.applied) && ListOk(me, v0, b.provisioned) && FailingOk(me, v0, b)
    && Idents(me, b.applied) !! Idents(me, b.provisioned)
    && Idents(me, b.applied) + Idents(me, b.provisioned) + Idents(me, b.resources) <= b.used
    && b.owned <= Idents(me, b.applied)
  }

  ghost predicate Underway(rec: Option<Record>) {
    rec.Some? && rec.value.status.InProgress?
  }

  /** Between two template resources: what is new is what is on the books, all of it in the
      persisted record. */
  ghost predicate ValidOf(me: StackName, v0: Things, view: Things, rec: Option<Record>, b: Books) {
    && Untouched(me, v0, view) && Bookish(me, v0, b) && b.failing.None?
    && New(v0, view) == Idents(me, b.resources) == Idents(me, b.applied) + Idents(me, b.provisioned)
    && Underway(rec) && Idents(me, b.resources) <= RecordIdents(me, rec)
  }

  /** Where a resource failed, or the process died: the persisted record still names all that is new,
      and, if the process lives, so do the books, but for a failed hook's thing. */
  ghost predicate InterruptedOf(me: StackName, v0: Things, view: Things, rec: Option<Record>, b: Books, alive: bool) {
    && Untouched(me, v0, view) && Bookish(me, v0, b) && Underway(rec)
    && New(v0, view) <= RecordIdents(me, rec)
    && AllDeletable(me, view, b.applied) && AllDeletable(me, view, b.provisioned)
    && (alive ==>
          && New(v0, view) - Stray(me, b.failing) == Idents(me, b.resources)
          && New(v0, view) - Stray(me, b.failing) == (Idents(me, b.applied) + Idents(me, b.provisioned)) - Stray(me, b.failing))
  }

  lemma ValidIsInterrupted(me: StackName, v0: Things, view: Things, rec: Option<Record>, b: Books, ids: set<Ident>)
    requires ValidOf(me, v0, view, rec, b)
    ensures ValidOf(me, v0, view, rec, b.(used := b.used + ids))
    ensures forall alive :: InterruptedOf(me, v0, view, rec, b.(used := b.used + ids), alive)
  {
    hide ListOk, Idents, RecordIdents;
  }

  /** Not gone through yet, not there before, and named by the persisted record. */
  ghost predicate Intended(me: StackName, v0: Things, rec: Option<Record>, b: Books, r: Resource) {
    IdentOf(me, r) !in b.used && IdentOf(me, r) !in v0 && IdentOf(me, r) in RecordIdents(me, rec) && !r.nature.SignalWait?
  }

  function Booked(b: Books, id: Ident, r: Resource, rest: bool, own: bool): Books {
    b.(resources := b.resources + [r], used := b.used + {id},
       applied := if rest then b.applied else b.applied + [r],
       provisioned := if rest then b.provisioned + [r] else b.provisioned,
       owned := if own then b.owned + {id} else b.owned)
  }

  lemma ListGrows(me: StackName, v0: Things, rs: seq<Resource>, r: Resource)
    requires ListOk(me, v0, rs) && IdentOf(me, r) !in Idents(me, rs) && IdentOf(me, r) !in v0 && !r.nature.SignalWait?
    ensures ListOk(me, v0, rs + [r])
  {
    var all := rs + [r];
    assert all[|rs|] == r && forall i :: 0 <= i < |rs| ==> all[i] == rs[i];
    DistinctIdentsSnoc(me, rs, r);
  }

  /** A resource is made and goes on the books. */
  lemma MadeAndBooked(me: StackName, v0: Things, view: Things, rec: Option<Record>, b: Books, r: Resource, rest: bool, own: bool)
    requires ValidOf(me, v0, view, rec, b) && Intended(me, v0, rec, b, r) && (own ==> !rest)
    ensures ValidOf(me, v0, view[IdentOf(me, r) := Thing(Some(me), r.spec)], rec, Booked(b, IdentOf(me, r), r, rest, own))
  {
    hide ListOk, Idents, RecordIdents;
    var id := IdentOf(me, r);
    IdentsSnoc(me, b.resources, r);
    IdentsSnoc(me, b.applied, r);
    IdentsSnoc(me, b.provisioned, r);
    ListGrows(me, v0, b.applied, r);
    ListGrows(me, v0, b.provisioned, r);
    var b', view' := Booked(b, id, r, rest, own), view[id := Thing(Some(me), r.spec)];
    assert New(v0, view') == New(v0, view) + {id};
  }

  /** The process died just after making it: the write-ahead names it. */
  lemma MadeThenDied(me: StackName, v0: Things, view: Things, rec: Option<Record>, b: Books, r: Resource)
    requires ValidOf(me, v0, view, rec, b) && Intended(me, v0, rec, b, r)
    ensures InterruptedOf(me, v0, view[IdentOf(me, r) := Thing(Some(me), r.spec)], rec, b.(used := b.used + {IdentOf(me, r)}), false)
  {
    hide ListOk, Idents, RecordIdents;
  }

  /** A hook failed, with or without making its thing; a nested stack is on the rollback list either way. */
  lemma HookFailed(me: StackName, v0: Things, view: Things, view': Things, rec: Option<Record>, b: Books, r: Resource, alive: bool)
    requires ValidOf(me, v0, view, rec, b) && Intended(me, v0, rec, b, r) && Hooked(r) && r.policy.Delete?
    requires view' == view || view' == view[IdentOf(me, r) := Thing(Some(me), r.spec)]
    ensures var id := IdentOf(me, r);
            InterruptedOf(me, v0, view', rec,
              b.(applied := if r.nature.NestedStack? then b.applied + [r] else b.applied, used := b.used + {id}, failing := Some(r)), alive)
  {
    hide ListOk, Idents, RecordIdents;
    FailedKept(me, v0, b.applied, r);
    var id := IdentOf(me, r);
    IdentsSnoc(me, b.applied, r);
    ListGrows(me, v0, b.applied, r);
    assert New(v0, view') == New(v0, view) || New(v0, view') == New(v0, view) + {id};
  }

  lemma FailedKept(me: StackName, v0: Things, applied: seq<Resource>, r: Resource)
    requires IdentOf(me, r) !in Idents(me, applied) && r.policy.Delete? && !r.nature.SignalWait?
    requires ListOk(me, v0, applied)
    ensures forall i :: 0 <= i < |applied| ==> IdentOf(me, applied[i]) != IdentOf(me, r)
    ensures forall i :: 0 <= i < |applied + [r]| && IdentOf(me, (applied + [r])[i]) == IdentOf(me, r) ==> !KeptOnRollback((applied + [r])[i])
  {
    var all := applied + [r];
    assert all[|applied|] == r && forall i :: 0 <= i < |applied| ==> all[i] == applied[i];
  }

  lemma HookIsFresh(me: StackName, v0: Things, view: Things, rec: Option<Record>, b: Books, id: Ident)
    requires ValidOf(me, v0, view, rec, b) && id !in b.used && id !in v0
    ensures id !in view
  {
  }

  lemma ConditionBooked(me: StackName, v0: Things, view: Things, rec: Option<Record>, b: Books, r: Resource)
    requires ValidOf(me, v0, view, rec, b) && r.nature.SignalWait?
    ensures ValidOf(me, v0, view, rec, b.(resources := b.resources + [r]))
  {
    hide ListOk, RecordIdents;
    IdentsSnoc(me, b.resources, r);
    hide Idents;
  }

  lemma BooksOwned(me: StackName, v0: Things, view: Things, rec: Option<Record>, b: Books)
    requires ValidOf(me, v0, view, rec, b)
    ensures b.owned <= b.used && forall id :: id in b.owned ==> id in view && Mine(me, view[id])
    ensures forall id :: id in v0 ==> id in view
    ensures forall id :: id in view && id !in v0 ==> id in b.used
  {
    hide Idents, ListOk;
  }

  lemma NamesPending(me: StackName, resources: seq<Resource>, r: Resource)
    requires !r.nature.SignalWait?
    ensures IdentOf(me, r) in RecordIdents(me, Some(Record(InProgress, resources, [r])))
  {
    IdentsOne(me, r);
  }

  lemma NotFailing(me: StackName, v0: Things, view: Things, rec: Option<Record>, b: Books)
    requires ValidOf(me, v0, view, rec, b)
    ensures b.failing.None?
  {
  }

  // ---------------------------------------------------------------- where the records' entries come from

  ghost function Members(rs: seq<Resource>): set<Resource> {
    set r | r in rs
  }

  /** The record, persisted and being built, lists only what the plan holds. */
  ghost predicate FromPlan(plan: set<Resource>, rec: Option<Record>, resources: seq<Resource>) {
    && Members(resources) <= plan
    && (rec.Some? ==> Members(rec.value.resources) <= plan && Members(rec.value.pending) <= plan)
  }

  lemma MembersSnoc(rs: seq<Resource>, r: Resource)
    ensures Members(rs + [r]) == Members(rs) + {r} && Members([r]) == {r} && Members([]) == {}
  {
    assert (rs + [r])[|rs|] == r;
  }

  // ---------------------------------------------------------------- what a rollback leaves

  /** What a rollback of the list leaves on purpose. */
  ghost function KeptIdents(me: StackName, rs: seq<Resource>): set<Ident> {
    Idents(me, rs) - Doomed(me, rs, true)
  }

  /** New things that no record names. */
  ghost function Orphans(me: StackName, v0: Things, view: Things, rec: Option<Record>): set<Ident> {
    New(v0, view) - RecordIdents(me, rec)
  }

  lemma DoomedListed(me: StackName, rs: seq<Resource>)
    ensures Doomed(me, rs, true) <= Idents(me, rs)
  {
  }

  lemma ListReady(me: StackName, v0: Things, view: Things, rs: seq<Resource>)
    requires ListOk(me, v0, rs) && Untouched(me, v0, view) && AllDeletable(me, view, rs)
    ensures DistinctIdents(me, rs)
    ensures forall i :: 0 <= i < |rs| ==> !rs[i].nature.SignalWait? && Deletable(me, view, IdentOf(me, rs[i]))
  {
    assert forall i :: 0 <= i < |rs| ==> IdentOf(me, rs[i]) in Idents(me, rs);
  }

  ghost predicate Shrunk(before: Things, after: Things, doomed: set<Ident>) {
    && (forall id :: id in after ==> id in before && after[id] == before[id])
    && (forall id :: id in before && id !in doomed ==> id in after)
  }

  lemma SecondListReady(me: StackName, v0: Things, view: Things, mid: Things, b: Books)
    requires Untouched(me, v0, view) && Bookish(me, v0, b) && AllDeletable(me, view, b.provisioned)
    requires Shrunk(view, mid, Doomed(me, b.applied, true))
    ensures Untouched(me, v0, mid) && AllDeletable(me, mid, b.provisioned)
  {
    DoomedListed(me, b.applied);
    DoomedNew(me, v0, b.applied);
    hide Idents, Doomed, ListOk, FailingOk;
  }

  lemma DoomedNew(me: StackName, v0: Things, rs: seq<Resource>)
    requires ListOk(me, v0, rs)
    ensures Doomed(me, rs, true) !! v0.Keys
  {
  }

  /** What the rollback of both lists leaves. */
  lemma AfterRollback(me: StackName, v0: Things, view: Things, mid: Things, after: Things, rec: Option<Record>, b: Books, alive: bool)
    requires InterruptedOf(me, v0, view, rec, b, alive)
    requires Shrunk(view, mid, Doomed(me, b.applied, true)) && Shrunk(mid, after, Doomed(me, b.provisioned, true))
    ensures Untouched(me, v0, after) && New(v0, after) <= New(v0, view)
    ensures alive ==> New(v0, after) - Idents(me, b.resources) == New(v0, after) * Stray(me, b.failing)
    ensures b.failing.Some? && !b.failing.value.nature.NestedStack? ==>
              New(v0, after) * Stray(me, b.failing) == New(v0, view) * Stray(me, b.failing)
    ensures alive && mid == view - Doomed(me, b.applied, true) && after == mid - Doomed(me, b.provisioned, true) ==>
              New(v0, after) == LeftOver(me, v0, view, b)
    ensures mid == view - Doomed(me, b.applied, true) && b.failing.Some? && b.failing.value.nature.NestedStack? ==>
              IdentOf(me, b.failing.value) !in after
  {
    DoomedListed(me, b.applied);
    DoomedListed(me, b.provisioned);
    DoomedNew(me, v0, b.applied);
    DoomedNew(me, v0, b.provisioned);
    FailedIsDoomed(me, v0, b);
    hide Idents, Doomed, ListOk, RecordIdents, AllDeletable;
    if alive {
      LeftOverSets(New(v0, view), Stray(me, b.failing), Idents(me, b.applied), Idents(me, b.provisioned), Doomed(me, b.applied, true),
                   Doomed(me, b.provisioned, true), b.failing.Some? && b.failing.value.nature.NestedStack?);
    }
  }

  lemma LeftOverSets(made: set<Ident>, stray: set<Ident>, a: set<Ident>, p: set<Ident>, da: set<Ident>, dp: set<Ident>, nested: bool)
    requires made - stray == (a + p) - stray && a !! p && da <= a && dp <= p
    requires if nested then stray <= da else stray !! a + p
    ensures made - da - dp == (a - da) + (p - dp) + if nested then {} else made * stray
  {
    forall id
      ensures id in made - da - dp <==> id in (a - da) + (p - dp) + (if nested then {} else made * stray)
    {
      assert id in made - stray <==> id in (a + p) - stray;
    }
  }

  /** What a rollback whose deletes succeed leaves of what is new: what is kept, and the thing of a
      failed hook that is on no rollback list. */
  ghost function LeftOver(me: StackName, v0: Things, view: Things, b: Books): set<Ident> {
    KeptIdents(me, b.applied) + KeptIdents(me, b.provisioned) +
    (if b.failing.Some? && !b.failing.value.nature.NestedStack? then New(v0, view) * Stray(me, b.failing) else {})
  }

  lemma FailedIsDoomed(me: StackName, v0: Things, b: Books)
    requires Bookish(me, v0, b)
    ensures b.failing.Some? && b.failing.value.nature.NestedStack? ==> IdentOf(me, b.failing.value) in Doomed(me, b.applied, true)
  {
  }

  // ---------------------------------------------------------------- the operation

  class Creation {
    const c: Cluster
    const p: Progress
    const items: seq<Item>
    /** Every resource the operation may record. */
    ghost const plan: set<Resource>
    /** The order things are made in. */
    ghost const order: seq<Built>
    /** The cluster before the operation. */
    ghost const v0: Things
    var resources: seq<Resource>
    var applied: seq<Resource>
    var provisioned: seq<Resource>
    var owned: set<Ident>
    ghost var used: set<Ident>
    /** The hook that failed, if one did. */
    ghost var failing: Option<Resource>

    constructor (c: Cluster, items: seq<Item>, ghost plan: set<Resource>)
      requires c.Guaranteed()
      ensures this.c == c && this.items == items && this.plan == plan && v0 == c.View() && fresh(p) && fresh(p.waits) && p.c == c
      ensures order == AllBuilts(items, |items|) && p.from == |c.journal|
      ensures B() == Books([], [], [], {}, {}, None) && p.Valid() && p.started == [] && p.broken == {}
    {
      this.c, this.items, this.plan, order := c, items, plan, AllBuilts(items, |items|);
      v0 := c.View();
      p := new Progress(c);
      resources, applied, provisioned, owned := [], [], [], {};
      used, failing := {}, None;
    }

    ghost function B(): Books
      reads this
    {
      Books(resources, applied, provisioned, owned, used, failing)
    }

    ghost predicate Valid()
      reads this, c
    {
      c.Guaranteed() && ValidOf(c.me, v0, c.View(), c.record, B())
    }

    ghost predicate Planned()
      reads this, c
    {
      FromPlan(plan, c.record, resources) && Members(applied) <= plan && Members(provisioned) <= plan && OnTime()
      && AsSpecified(c.me, ResourcesOf(order), v0, c.View())
    }

    /** Nothing was made before all it depends on was ready. */
    ghost predicate OnTime()
      reads this, c
    {
      Orderly(c.me, order) && InTime(c.me, order, c.journal, p.from)
    }

    /** It is the resource's turn. */
    ghost predicate Next(b: Built)
      reads c, p
    {
      Turn(order, p.started, p.completed, c.journal, p.from, b)
    }

    ghost predicate Interrupted()
      reads this, c
    {
      c.Guaranteed() && InterruptedOf(c.me, v0, c.View(), c.record, B(), c.alive)
    }

    /** intend: the write-ahead. */
    method Intend(rs: seq<Resource>) returns (ok: bool)
      requires Valid() && Planned() && Members(rs) <= plan
      modifies c
      ensures Planned() && Later(old(c.Now()), c.Now(), c.quiet)
      ensures c.deletes == old(c.deletes) && c.cut == old(c.cut) && c.met == old(c.met) && c.removed == old(c.removed)
      ensures c.journal == old(c.journal)
      ensures Valid() && c.View() == old(c.View())
      ensures ok ==> c.alive && c.record == Some(Record(InProgress, resources, rs)) && c.refusals == old(c.refusals)
      ensures !ok && c.alive ==> c.refusals > old(c.refusals)
    {
      hide Tracks, ThingsAfter, KeepsToItsOwn, Accounted, Seen, Later, Idents, Members, Bookish, Untouched, New;
      NothingYet(c.Now(), c.quiet);
      ghost var h0 := c.Now();
      ok := c.WriteRecord(Record(InProgress, resources, rs));
      LaterOn(h0, h0, c.Now(), c.quiet);
    }

    /** A custom resource, a nested stack or a REST API: recorded as pending, then made.  A hook that
        fails may leave its thing; on a quiet cluster the broken ones do. */
    method MakeHooked(r: Resource, ghost after: set<Graph.Id>) returns (ok: bool)
      requires Valid() && Planned() && r in plan && Hooked(r) && r.policy.Delete? && IdentOf(c.me, r) !in used && IdentOf(c.me, r) !in v0
      requires Next(Built(r, after))
      modifies this, c
      ensures Planned() && Later(old(c.Now()), c.Now(), c.quiet && IdentOf(c.me, r) !in c.broken)
      ensures c.deletes == old(c.deletes) && c.cut == old(c.cut) && c.met == old(c.met) && c.removed == old(c.removed)
      ensures old(c.journal) <= c.journal && (ok ==> ReadyBy(c.journal, p.from, |c.journal|, r.lid))
      ensures used == old(used) + {IdentOf(c.me, r)} && failing in {None, Some(r)} && (ok ==> failing.None?)
      ensures ok ==> Valid() && resources == old(resources) + [r]
      ensures ok && !r.nature.CustomResource? ==> c.record == Some(Record(InProgress, resources, []))
      ensures ok ==> c.refusals == old(c.refusals)
      ensures !ok ==> Interrupted() && (c.alive ==> c.refusals > old(c.refusals))
      ensures c.quiet && old(c.alive) && IdentOf(c.me, r) in c.broken ==>
                !ok && c.alive && failing == Some(r) && IdentOf(c.me, r) in c.View()
    {
      hide Tracks, ThingsAfter, KeepsToItsOwn, Accounted, Seen, Later, Idents, Members, ValidOf, InterruptedOf, FromPlan, InTime, AsSpecified, Orderly, RecordIdents, Untouched, Turn, ReadyBy;
      NotFailing(c.me, v0, c.View(), c.record, B());
      var id := IdentOf(c.me, r);
      ghost var q := c.quiet && id !in c.broken;
      ghost var h0 := c.Now();
      NothingYet(h0, q);
      MembersSnoc(resources, r);
      PlanGrows(plan, c.record, resources, r);
      ok := Intend([r]);
      ghost var h1 := c.Now();
      QuietFacts(h0, h1, c.quiet);
      LaterLess(h0, h1, c.quiet, q);
      LaterOn(h0, h0, h1, q);
      ValidIsInterrupted(c.me, v0, c.View(), c.record, B(), {id});
      if !ok {
        used := used + {id};
        return;
      }
      NamesPending(c.me, resources, r);
      ok := RunHook(r, after);
      ghost var h2 := c.Now();
      LaterOn(h0, h1, h2, q);
      if ok && !r.nature.CustomResource? {
        ok := Confirm();
        LaterLess(h2, c.Now(), c.quiet, q);
        LaterOn(h0, h2, c.Now(), q);
      }
    }

    /** The hook is called; on success its thing goes on the books.  A nested stack is on the
        rollback list even if it failed. */
    method RunHook(r: Resource, ghost after: set<Graph.Id>) returns (ok: bool)
      requires Valid() && Planned() && r in plan && Hooked(r) && r.policy.Delete? && IdentOf(c.me, r) !in used && IdentOf(c.me, r) !in v0
      requires Next(Built(r, after))
      requires IdentOf(c.me, r) in RecordIdents(c.me, c.record)
      modifies `resources, `applied, `provisioned, `used, `failing, c
      ensures Planned() && Later(old(c.Now()), c.Now(), c.quiet && IdentOf(c.me, r) !in c.broken)
      ensures c.deletes == old(c.deletes) && c.cut == old(c.cut) && c.met == old(c.met) && c.removed == old(c.removed)
      ensures old(c.journal) <= c.journal && (ok ==> ReadyBy(c.journal, p.from, |c.journal|, r.lid))
      ensures used == old(used) + {IdentOf(c.me, r)}
      ensures ok ==> Valid() && resources == old(resources) + [r] && failing.None? && c.refusals == old(c.refusals)
      ensures !ok ==> Interrupted() && failing == Some(r) && (c.alive ==> c.refusals > old(c.refusals))
      ensures c.quiet && old(c.alive) && IdentOf(c.me, r) in c.broken ==> !ok && c.alive && IdentOf(c.me, r) in c.View()
    {
      hide DistinctIdents, AllDeletable, Bookish, Tracks, ThingsAfter, KeepsToItsOwn, Accounted, Seen, Later, Idents, Members, ValidOf, InterruptedOf, FromPlan, InTime, AsSpecified, Orderly, RecordIdents, Untouched, Turn, ReadyBy;
      NotFailing(c.me, v0, c.View(), c.record, B());
      var id := IdentOf(c.me, r);
      ghost var h0, v, b, journal := c.Now(), c.View(), B(), c.journal;
      NothingYet(h0, c.quiet && id !in c.broken);
      PlanGrows(plan, c.record, resources, r);
      MembersSnoc(applied, r);
      MembersSnoc(provisioned, r);
      HookIsFresh(c.me, v0, v, c.record, b, id);
      MadeAndBooked(c.me, v0, v, c.record, b, r, r.nature.RestApi?, false);
      PutSpecified(c.me, order, p.started, p.completed, journal, p.from, Built(r, after), v0, v);
      ok := c.CallHook(id, r.spec);
      HookInTime(c.me, order, p.started, p.completed, journal, c.journal, p.from, Built(r, after));
      LaterOn(h0, h0, c.Now(), c.quiet && id !in c.broken);
      HookFailed(c.me, v0, v, c.View(), c.record, b, r, c.alive);
      if r.nature.NestedStack? {
        applied := applied + [r];
      }
      used := used + {id};
      if !ok {
        failing := Some(r);
        return;
      }
      if r.nature.RestApi? {
        provisioned := provisioned + [r];
      } else if !r.nature.NestedStack? {
        applied := applied + [r];
      }
      resources := resources + [r];
      assert B() == Booked(b, id, r, r.nature.RestApi?, false);
    }

    /** What was made is in Resources now, and nothing is pending. */
    method Confirm() returns (ok: bool)
      requires Valid() && Planned()
      modifies c
      ensures Planned() && Later(old(c.Now()), c.Now(), c.quiet)
      ensures c.deletes == old(c.deletes) && c.cut == old(c.cut) && c.met == old(c.met) && c.removed == old(c.removed)
      ensures c.journal == old(c.journal)
      ensures ok ==> Valid() && c.record == Some(Record(InProgress, resources, [])) && c.refusals == old(c.refusals)
      ensures !ok ==> Interrupted() && (c.alive ==> c.refusals > old(c.refusals))
    {
      hide Tracks, ThingsAfter, KeepsToItsOwn, Accounted, Seen, Later, Idents, ValidOf, InterruptedOf, FromPlan, InTime, AsSpecified, Orderly, RecordIdents;
      assert Members([]) == {};
      ok := Intend([]);
      if !ok {
        ValidIsInterrupted(c.me, v0, c.View(), c.record, B(), {});
        assert B() == B().(used := used + {});
      }
    }

    /** A wait condition: nothing to make, only recorded. */
    method AddCondition(r: Resource) returns (ok: bool)
      requires Valid() && Planned() && r in plan && r.nature.SignalWait?
      modifies this, c
      ensures Planned() && Later(old(c.Now()), c.Now(), c.quiet)
      ensures c.deletes == old(c.deletes) && c.cut == old(c.cut) && c.met == old(c.met) && c.removed == old(c.removed)
      ensures c.journal == old(c.journal)
      ensures used == old(used) && failing == old(failing)
      ensures ok ==> Valid() && resources == old(resources) + [r]
      ensures ok ==> c.record == Some(Record(InProgress, resources, [])) && c.refusals == old(c.refusals)
      ensures !ok ==> Interrupted() && (c.alive ==> c.refusals > old(c.refusals))
    {
      hide Tracks, ThingsAfter, KeepsToItsOwn, Accounted, Seen, Later, Idents, Members, ValidOf, InterruptedOf, FromPlan, InTime, AsSpecified, Orderly, RecordIdents, Untouched;
      ConditionBooked(c.me, v0, c.View(), c.record, B(), r);
      PlanGrows(plan, c.record, resources, r);
      resources := resources + [r];
      ok := Confirm();
    }

    /** The object and its companions: all recorded as pending, then applied one by one, each with
        its wait queued. */
    method ApplyObjects(rs: seq<Resource>, item: Item) returns (ok: bool)
      requires Valid() && Planned() && Members(rs) <= plan && item.make == Objects(rs) && WellFormed(item) && DistinctParts(c.me, item)
      requires Idents(c.me, rs) !! used && p.c == c
      requires p.Valid() && p.broken == {} && Clear(p.started, p.completed, item.after) && p.started + BuiltsOf(item) <= order
      modifies this, c, p, p.waits
      ensures Planned() && Later(old(c.Now()), c.Now(), c.quiet)
      ensures c.deletes == old(c.deletes) && c.cut == old(c.cut) && c.removed == old(c.removed)
      ensures used <= old(used) + Idents(c.me, rs) && failing == old(failing)
      ensures p.Valid() && p.broken == {} && p.started <= order && old(c.journal) <= c.journal
      ensures ok ==> p.started == old(p.started) + BuiltsOf(item)
      ensures ok ==> Valid() && resources == old(resources) + rs && c.met == old(c.met) && Idents(c.me, rs) !! v0.Keys
      ensures ok ==> c.refusals == old(c.refusals)
      ensures !ok ==> Interrupted()
      ensures !ok && c.alive && c.refusals == old(c.refusals) && (c.alone || c.met == old(c.met)) ==> !(Idents(c.me, rs) !! v0.Keys)
    {
      hide Tracks, ThingsAfter, KeepsToItsOwn, Accounted, Seen, Later, Idents, Members, ValidOf, InterruptedOf, FromPlan, InTime, AsSpecified, Orderly, RecordIdents, Untouched,
        DistinctIdents, Lids, Clear, PartitionOf, CompletedReady, Turn;
      ghost var h0 := c.Now();
      NothingYet(h0, c.quiet);
      ok := Intend(rs);
      ghost var h := c.Now();
      LaterOn(h0, h0, h, c.quiet);
      if !ok {
        ValidIsInterrupted(c.me, v0, c.View(), c.record, B(), {});
        assert B() == B().(used := used + {});
        return;
      }
      ok := ApplyEach(rs, item);
      LaterOn(h0, h, c.Now(), c.quiet);
    }

    method ApplyEach(rs: seq<Resource>, item: Item) returns (ok: bool)
      requires Valid() && Planned() && Members(rs) <= plan && item.make == Objects(rs) && WellFormed(item) && DistinctParts(c.me, item)
      requires Idents(c.me, rs) !! used && p.c == c && c.record.Some? && c.record.value.pending == rs
      requires p.Valid() && p.broken == {} && Clear(p.started, p.completed, item.after) && p.started + BuiltsOf(item) <= order
      modifies `resources, `applied, `owned, `used, c, p, p.waits
      ensures Planned() && Later(old(c.Now()), c.Now(), c.quiet)
      ensures c.deletes == old(c.deletes) && c.cut == old(c.cut) && c.removed == old(c.removed)
      ensures used <= old(used) + Idents(c.me, rs)
      ensures p.Valid() && p.broken == {} && p.started <= order && old(c.journal) <= c.journal
      ensures ok ==> p.started == old(p.started) + BuiltsOf(item)
      ensures ok ==> Valid() && resources == old(resources) + rs && c.met == old(c.met) && Idents(c.me, rs) !! v0.Keys
      ensures ok ==> c.refusals == old(c.refusals)
      ensures !ok ==> Interrupted()
      ensures !ok && c.alive && c.refusals == old(c.refusals) && (c.alone || c.met == old(c.met)) ==> !(Idents(c.me, rs) !! v0.Keys)
    {
      hide Tracks, ThingsAfter, KeepsToItsOwn, Accounted, Seen, Later, Idents, Members, ValidOf, InterruptedOf, FromPlan, InTime, AsSpecified, Orderly, RecordIdents, Untouched,
        DistinctIdents, Lids, Clear, PartitionOf, CompletedReady, Turn;
      ghost var h0, rec, used0, s0, bs := c.Now(), c.record, used, p.started, BuiltsOf(item);
      assert s0 + bs[..0] == s0 && s0 <= s0 + bs;
      NothingYet(h0, c.quiet);
      ClearLess(p.started, p.completed, item.after, item.base);
      PartsApart(c.me, item);
      PendingNamed(c.me, rec.value);
      for n := 0 to |rs|
        invariant Valid() && Planned() && c.record == rec && resources == old(resources) + rs[..n]
        invariant Later(h0, c.Now(), c.quiet) && c.deletes == h0.deletes && c.cut == h0.cut && c.met == h0.met && c.removed == old(c.removed)
        invariant c.refusals == h0.refusals
        invariant p.Valid() && p.broken == {} && Clear(p.started, p.completed, item.after - {item.base})
        invariant p.started == s0 + bs[..n] && p.started <= order && old(c.journal) <= c.journal
        invariant used <= used0 + Idents(c.me, rs) && forall i :: n <= i < |rs| ==> IdentOf(c.me, rs[i]) !in used
        invariant forall i :: 0 <= i < n ==> IdentOf(c.me, rs[i]) !in v0
      {
        ghost var h := c.Now();
        MemberOf(rs, n);
        assert rs[..n + 1] == rs[..n] + [rs[n]];
        PartNext(item, s0, order, n);
        ItIsNext(order, p.started, p.completed, c.journal, p.from, Built(rs[n], item.after), item);
        ok := ApplyPart(rs[n], item);
        LaterOn(h0, h, c.Now(), c.quiet);
        if !ok {
          return;
        }
      }
      assert rs[..|rs|] == rs && bs[..|rs|] == bs;
      NoneThere(c.me, rs, v0);
      ok := true;
    }

    /** One of the objects, and its wait. */
    method ApplyPart(r: Resource, item: Item) returns (ok: bool)
      requires Valid() && Planned() && r in plan && r.nature.Object? && p.c == c
      requires IdentOf(c.me, r) !in used && IdentOf(c.me, r) in RecordIdents(c.me, c.record)
      requires p.Valid() && p.broken == {} && r.lid.base == item.base && Next(Built(r, item.after))
      requires Clear(p.started, p.completed, item.after - {item.base})
      modifies `resources, `applied, `owned, `used, c, p, p.waits
      ensures Planned() && Later(old(c.Now()), c.Now(), c.quiet) && c.record == old(c.record)
      ensures c.deletes == old(c.deletes) && c.cut == old(c.cut) && c.removed == old(c.removed)
      ensures used == old(used) + {IdentOf(c.me, r)}
      ensures p.Valid() && p.broken == {} && Clear(p.started, p.completed, item.after - {item.base})
      ensures p.started == old(p.started) + (if ok then [Built(r, item.after)] else []) && old(c.journal) <= c.journal
      ensures ok ==> Valid() && resources == old(resources) + [r] && c.met == old(c.met) && IdentOf(c.me, r) !in v0
      ensures ok ==> c.refusals == old(c.refusals)
      ensures !ok ==> Interrupted()
      ensures !ok && c.alive && c.refusals == old(c.refusals) && (c.alone || c.met == old(c.met)) ==> IdentOf(c.me, r) in v0
    {
      hide Tracks, ThingsAfter, KeepsToItsOwn, Accounted, Seen, Later, Idents, Members, ValidOf, InterruptedOf, FromPlan, InTime, AsSpecified, Orderly, RecordIdents, Untouched,
        Lids, Clear, PartitionOf, CompletedReady, Turn;
      ghost var journal := c.journal;
      ItIsFresh(c.me, order, p.started, p.completed, journal, p.from, Built(r, item.after));
      ok := ApplyObject(r, item.after);
      StillReady(p.completed, journal, c.journal, p.from);
      if ok {
        ClearSnoc(p.started, p.completed, Built(r, item.after), item);
        p.Enqueue(Built(r, item.after));
      }
    }

    method ApplyObject(r: Resource, ghost after: set<Graph.Id>) returns (ok: bool)
      requires Valid() && Planned() && r in plan && r.nature.Object?
      requires IdentOf(c.me, r) !in used && IdentOf(c.me, r) in RecordIdents(c.me, c.record) && Next(Built(r, after))
      modifies `resources, `applied, `owned, `used, c
      ensures old(c.journal) <= c.journal
      ensures Planned() && Later(old(c.Now()), c.Now(), c.quiet) && c.record == old(c.record)
      ensures c.deletes == old(c.deletes) && c.cut == old(c.cut) && c.removed == old(c.removed)
      ensures used == old(used) + {IdentOf(c.me, r)}
      ensures ok ==> Valid() && resources == old(resources) + [r] && c.met == old(c.met) && IdentOf(c.me, r) !in v0
      ensures ok ==> c.refusals == old(c.refusals)
      ensures !ok ==> Interrupted()
      ensures !ok && c.alive && c.refusals == old(c.refusals) && (c.alone || c.met == old(c.met)) ==> IdentOf(c.me, r) in v0
    {
      hide Tracks, ThingsAfter, KeepsToItsOwn, Accounted, Seen, Later, Idents, Members, ValidOf, InterruptedOf, FromPlan, InTime, AsSpecified, Orderly, RecordIdents, Untouched, Turn;
      ghost var h0 := c.Now();
      NothingYet(h0, c.quiet);
      MadeInTime(c.me, order, p.started, p.completed, c.journal, p.from, Built(r, after));
      var id := IdentOf(c.me, r);
      ghost var v, b := c.View(), B();
      BooksOwned(c.me, v0, v, c.record, b);
      ValidIsInterrupted(c.me, v0, v, c.record, b, {id});
      PutSpecified(c.me, order, p.started, p.completed, c.journal, p.from, Built(r, after), v0, v);
      var owned': set<Ident>;
      ok, owned' := ApplyOwned(c, id, r.spec, owned);
      LaterOn(h0, h0, c.Now(), c.quiet);
      used := used + {id};
      if ok {
        MadeAndBooked(c.me, v0, v, c.record, b, r, false, true);
        PlanGrows(plan, c.record, resources, r);
        MembersSnoc(applied, r);
        applied, resources, owned := applied + [r], resources + [r], owned';
        assert B() == Booked(b, id, r, false, true);
      } else if c.View() != v {
        MadeThenDied(c.me, v0, v, c.record, b, r);
      }
    }

    /** The rollback: the applied list newest first, then the provisioned APIs, then the record
        without its pending half. */
    method Rollback()
      requires Interrupted() && Planned()
      modifies c, p.waits
      ensures p.waits.pending == []
      ensures Planned() && c.Guaranteed() && Later(old(c.Now()), c.Now(), c.quiet) && c.met == old(c.met) && c.journal == old(c.journal)
      ensures c.record.Some? && c.record.value.status in {InProgress, RolledBack, RollbackFailed}
      ensures Untouched(c.me, v0, c.View()) && New(v0, c.View()) <= New(v0, old(c.View()))
      ensures c.record.value.status.InProgress? ==> New(v0, c.View()) <= RecordIdents(c.me, c.record)
      ensures !c.record.value.status.InProgress? ==> old(c.alive)
      ensures !c.record.value.status.InProgress? ==>
                Orphans(c.me, v0, c.View(), c.record) == New(v0, c.View()) * Stray(c.me, failing)
      ensures failing.Some? && !failing.value.nature.NestedStack? ==>
                New(v0, c.View()) * Stray(c.me, failing) == New(v0, old(c.View())) * Stray(c.me, failing)
      ensures DeletesWork(old(c.Now()), c.Now()) || c.record.value.status.RolledBack? ==>
                && New(v0, c.View()) == LeftOver(c.me, v0, old(c.View()), B())
                && (failing.Some? && failing.value.nature.NestedStack? ==> IdentOf(c.me, failing.value) !in c.View())
                && c.removed == old(c.removed) + DoomedOrder(c.me, applied, true) + DoomedOrder(c.me, provisioned, true)
      ensures Flawless(old(c.Now()), c.Now()) ==> c.record.value.status.RolledBack?
      ensures c.record.value.status.RollbackFailed? ==> c.deletes > old(c.deletes)
      ensures c.record.value.status.InProgress? ==> !old(c.alive) || c.refusals > old(c.refusals) || c.crashes > old(c.crashes)
    {
      hide Tracks, ThingsAfter, KeepsToItsOwn, Accounted, Seen, Later, Idents, Members, FromPlan, InTime, AsSpecified, Orderly, RecordIdents, Untouched, Bookish, AllDeletable,
        Doomed, DoomedOrder, LeftOver, New;
      ghost var v, h0 := c.View(), c.Now();
      NothingYet(h0, c.quiet);
      var _ := p.waits.TakeAll();
      RollbackReady(c.me, v0, v, c.record, B(), c.alive);
      var ok := RollbackCreate(c, applied);
      ghost var v1, h1 := c.View(), c.Now();
      LaterOn(h0, h0, h1, c.quiet);
      SecondListReady(c.me, v0, v, v1, B());
      ListReady(c.me, v0, v1, provisioned);
      var ok' := RollbackCreate(c, provisioned);
      ghost var v2, h2 := c.View(), c.Now();
      LaterOn(h0, h1, h2, c.quiet);
      SpecifiedShrinks(c.me, ResourcesOf(order), v0, v, v2);
      AfterRollback(c.me, v0, v, v1, v2, c.record, B(), old(c.alive));
      var status := if ok && ok' then RolledBack else RollbackFailed;
      PlanSettles(plan, c.record, resources, status);
      OnlyResources(c.me, Record(status, resources, []));
      var _ := c.WriteRecord(Record(status, resources, []));
      LaterOn(h0, h2, c.Now(), c.quiet);
    }

    /** One template resource at its point in the order: what it depends on completes, then it is made. */
    method Provision(item: Item) returns (ok: bool)
      requires Valid() && Planned() && WellFormed(item) && DistinctParts(c.me, item) && ItemIdents(c.me, item) !! used
      requires Members(Parts(item)) <= plan && HookFree(c.me, v0, item) && p.c == c && p.Valid() && p.broken == {} && p.started + BuiltsOf(item) <= order
      modifies this, c, p, p.waits
      ensures Planned() && Later(old(c.Now()), c.Now(), c.quiet && Sturdy(c.me, item, c.broken))
      ensures c.deletes == old(c.deletes) && c.cut == old(c.cut) && c.removed == old(c.removed)
      ensures used <= old(used) + ItemIdents(c.me, item) && (failing.None? || item.make == Hook(failing.value))
      ensures p.Valid() && p.started <= order && old(c.journal) <= c.journal
      ensures ok ==> p.started == old(p.started) + BuiltsOf(item)
      ensures ok ==> Valid() && p.broken == {} && resources == old(resources) + Parts(item) && c.met == old(c.met) && Makeable(c.me, v0, item)
      ensures ok ==> c.refusals == old(c.refusals)
      ensures if ok then failing.None? else Interrupted()
      ensures failing.Some? && c.alive ==> c.refusals > old(c.refusals)
      ensures !ok && c.alive && c.refusals == old(c.refusals) && (c.alone || c.met == old(c.met)) ==> !Makeable(c.me, v0, item)
      ensures c.quiet && old(c.alive) && !Sturdy(c.me, item, c.broken) ==>
                !ok && c.alive && failing.Some? && IdentOf(c.me, failing.value) in c.View()
    {
      hide Tracks, ThingsAfter, KeepsToItsOwn, Accounted, Seen, Later, Idents, Members, ValidOf, InterruptedOf, FromPlan, InTime, AsSpecified, Orderly, RecordIdents, Untouched,
        Lids, Clear, PartitionOf, CompletedReady, Turn, Bookish;
      ItemFacts(c.me, v0, item, plan);
      NotFailing(c.me, v0, c.View(), c.record, B());
      ghost var q := c.quiet && Sturdy(c.me, item, c.broken);
      ghost var h0 := c.Now();
      NothingYet(h0, q);
      ValidIsInterrupted(c.me, v0, c.View(), c.record, B(), {});
      assert B() == B().(used := used + {});
      ghost var journal := c.journal;
      ok := p.Await(item.after);
      WaitsInTime(c.me, order, journal, c.journal, p.from);
      ghost var h1 := c.Now();
      QuietFacts(h0, h1, c.quiet);
      LaterLess(h0, h1, c.quiet, q);
      LaterOn(h0, h0, h1, q);
      if !ok {
        return;
      }
      ok := MakeIt(item);
      LaterOn(h0, h1, c.Now(), q);
    }

    method MakeIt(item: Item) returns (ok: bool)
      requires Valid() && Planned() && WellFormed(item) && DistinctParts(c.me, item) && ItemIdents(c.me, item) !! used
      requires Members(Parts(item)) <= plan && HookFree(c.me, v0, item) && p.c == c && p.Valid() && p.broken == {} && p.started + BuiltsOf(item) <= order
      requires Clear(p.started, p.completed, item.after)
      modifies this, c, p, p.waits
      ensures Planned() && Later(old(c.Now()), c.Now(), c.quiet && Sturdy(c.me, item, c.broken))
      ensures c.deletes == old(c.deletes) && c.cut == old(c.cut) && c.removed == old(c.removed)
      ensures used <= old(used) + ItemIdents(c.me, item) && (failing.None? || item.make == Hook(failing.value))
      ensures p.Valid() && p.started <= order && old(c.journal) <= c.journal
      ensures ok ==> p.started == old(p.started) + BuiltsOf(item)
      ensures ok ==> Valid() && p.broken == {} && resources == old(resources) + Parts(item) && c.met == old(c.met) && Makeable(c.me, v0, item)
      ensures ok ==> c.refusals == old(c.refusals)
      ensures if ok then failing.None? else Interrupted()
      ensures failing.Some? && c.alive ==> c.refusals > old(c.refusals)
      ensures !ok && c.alive && c.refusals == old(c.refusals) && (c.alone || c.met == old(c.met)) ==> !Makeable(c.me, v0, item)
      ensures c.quiet && old(c.alive) && !Sturdy(c.me, item, c.broken) ==>
                !ok && c.alive && failing.Some? && IdentOf(c.me, failing.value) in c.View()
    {
      hide Tracks, ThingsAfter, KeepsToItsOwn, Accounted, Seen, Later, Idents, Members, ValidOf, InterruptedOf, FromPlan, InTime, AsSpecified, Orderly, RecordIdents, Untouched,
        Lids, Clear, PartitionOf, CompletedReady, Turn, Bookish, DistinctParts, WellFormed, ItemIdents, HookFree, Makeable, Sturdy, BuiltsOf, IdentOf,
        Parts;
      ItemFacts(c.me, v0, item, plan);
      ValidIsInterrupted(c.me, v0, c.View(), c.record, B(), {});
      assert B() == B().(used := used + {});
      NotFailing(c.me, v0, c.View(), c.record, B());
      NothingYet(c.Now(), c.quiet);
      ClearLess(p.started, p.completed, item.after, item.base);
      ghost var journal, s0 := c.journal, p.started;
      assert s0 <= s0 + BuiltsOf(item);
      OnePart(item);
      match item.make {
        case Nothing =>
          assert s0 + [] == s0;
          ok := true;
        case Untranslatable =>
          ok := false;
        case Hook(r) =>
          ItIsNext(order, s0, p.completed, journal, p.from, Built(r, item.after), item);
          ItIsFresh(c.me, order, s0, p.completed, journal, p.from, Built(r, item.after));
          ok := MakeHooked(r, item.after);
          StillReady(p.completed, journal, c.journal, p.from);
          if ok {
            p.Finished(Built(r, item.after));
          }
        case Condition(r) =>
          ItIsNext(order, s0, p.completed, journal, p.from, Built(r, item.after), item);
          ItIsFresh(c.me, order, s0, p.completed, journal, p.from, Built(r, item.after));
          ok := AddCondition(r);
          if ok {
            p.Enqueue(Built(r, item.after));
          }
        case Objects(rs) =>
          ok := ApplyObjects(rs, item);
      }
    }

    /** The create has failed: rolled back if the process lives. */
    method Undo() returns (r: Outcome)
      requires Interrupted() && Planned()
      modifies c, p.waits
      ensures p.waits.pending == []
      ensures Planned() && c.Guaranteed() && OwnersRespected(c.start, c.history) && Later(old(c.Now()), c.Now(), c.quiet) && c.met == old(c.met) && c.journal == old(c.journal)
      ensures c.record.Some? && c.record.value.status in {InProgress, RolledBack, RollbackFailed} && Untouched(c.me, v0, c.View())
      ensures c.record.value.status.InProgress? ==> New(v0, c.View()) <= RecordIdents(c.me, c.record)
      ensures !c.record.value.status.InProgress? ==>
                Orphans(c.me, v0, c.View(), c.record) == New(v0, c.View()) * Stray(c.me, failing)
      ensures r == if old(c.alive) then Undone else Died
      ensures !c.record.value.status.InProgress? ==> r.Undone?
      ensures c.record.value.status.RolledBack? ==> New(v0, c.View()) == LeftOver(c.me, v0, c.View(), B())
      ensures DeletesWork(old(c.Now()), c.Now()) ==>
                && New(v0, c.View()) == LeftOver(c.me, v0, c.View(), B())
                && (failing.Some? && failing.value.nature.NestedStack? ==> IdentOf(c.me, failing.value) !in c.View())
                && c.removed == old(c.removed) + DoomedOrder(c.me, applied, true) + DoomedOrder(c.me, provisioned, true)
      ensures Flawless(old(c.Now()), c.Now()) ==> c.record.value.status.RolledBack?
      ensures c.record.value.status.RollbackFailed? ==> c.deletes > old(c.deletes)
      ensures c.record.value.status.InProgress? ==> !old(c.alive) || c.refusals > old(c.refusals) || c.crashes > old(c.crashes)
      ensures failing.Some? && !failing.value.nature.NestedStack? && IdentOf(c.me, failing.value) in old(c.View()) ==>
                IdentOf(c.me, failing.value) in c.View()
    {
      StrayIsNew(c.me, v0, c.View(), c.record, B(), c.alive);
      hide Tracks, ThingsAfter, KeepsToItsOwn, Accounted, Seen, Later, Idents, Members, InterruptedOf, FromPlan, InTime, AsSpecified, Orderly, RecordIdents, Untouched,
        Bookish, OwnersRespected, New, LeftOver, DoomedOrder;
      ghost var v := c.View();
      var living := c.alive;
      Rollback();
      LeftAtTheEnd(c.me, v0, v, c.View(), B());
      c.HistoryRespected();
      r := if living then Undone else Died;
    }

    /** The last waits, the stack's Outputs, and the final record. */
    method Finish() returns (r: Outcome)
      requires Valid() && Planned() && failing.None? && p.c == c && p.Valid() && p.broken == {} && p.started == order
      modifies this, c, p, p.waits
      ensures c.Guaranteed() && OwnersRespected(c.start, c.history) && Untouched(c.me, v0, c.View()) && Planned() && failing == old(failing)
      ensures Later(old(c.Now()), c.Now(), c.quiet) && old(c.journal) <= c.journal && p.started == order && c.met == old(c.met) && resources == old(resources)
      ensures c.record.Some? && c.record.value.status in {InProgress, Complete, RolledBack, RollbackFailed}
      ensures c.record.value.status in {InProgress, Complete} ==> New(v0, c.View()) <= RecordIdents(c.me, c.record)
      ensures c.record.value.status in {RolledBack, RollbackFailed} ==>
                Orphans(c.me, v0, c.View(), c.record) == New(v0, c.View()) * Stray(c.me, failing)
      ensures r in {Created, Unrecorded, Undone, Died}
      ensures c.record.value.status.Complete? ==> r.Created? || r.Unrecorded?
      ensures c.record.value.status.RolledBack? ==> r.Undone?
      ensures c.record.value.status.RollbackFailed? ==> c.deletes > old(c.deletes)
      ensures c.record.value.status.InProgress? ==> !old(c.alive) || c.refusals > old(c.refusals) || c.crashes > old(c.crashes)
      ensures r.Created? ==> c.alive && c.record == Some(Record(Complete, resources, [])) && p.completed == Lids(order) && AllReady(order, c.journal, p.from) && c.refusals == old(c.refusals)
      ensures c.record.value.status.RolledBack? ==> New(v0, c.View()) == LeftOver(c.me, v0, c.View(), B())
      ensures r.Created? || r.Unrecorded? ==> New(v0, c.View()) == Idents(c.me, resources)
      ensures r.Unrecorded? ==> c.refusals > old(c.refusals) || c.crashes > old(c.crashes)
      ensures r.Died? ==> !old(c.alive) || c.crashes > old(c.crashes)
      ensures r.Undone? && c.deletes == old(c.deletes) && c.cut == old(c.cut) ==>
                && New(v0, c.View()) == LeftOver(c.me, v0, c.View(), B())
                && c.removed == old(c.removed) + DoomedOrder(c.me, applied, true) + DoomedOrder(c.me, provisioned, true)
      ensures Flawless(old(c.Now()), c.Now()) ==> r.Created?
    {
      hide Orphans, LogicalMine, Tracks, ThingsAfter, KeepsToItsOwn, Accounted, Seen, Later, Idents, Members, ValidOf, InterruptedOf, FromPlan, InTime, AsSpecified, Orderly, RecordIdents, Untouched,
        Lids, PartitionOf, CompletedReady, AllReady, Bookish, OwnersRespected, New, LeftOver, DoomedOrder;
      ghost var h0 := c.Now();
      NothingYet(h0, c.quiet);
      ValidIsInterrupted(c.me, v0, c.View(), c.record, B(), {});
      assert B() == B().(used := used + {});
      CompleteCovers(c.me, v0, c.View(), c.record, B());
      PlanSettles(plan, c.record, resources, Complete);
      ghost var journal := c.journal;
      var ok := p.AwaitAll();
      WaitsInTime(c.me, order, journal, c.journal, p.from);
      if ok {
        CompleteIsReady(order, p.completed, c.journal, p.from);
      }
      ghost var h1 := c.Now();
      LaterOn(h0, h0, h1, c.quiet);
      if ok {
        ok := c.Wait();
      }
      ghost var h2 := c.Now();
      LaterOn(h0, h1, h2, c.quiet);
      if !ok {
        r := Undo();
        LaterOn(h0, h2, c.Now(), c.quiet);
        return;
      }
      ok := c.WriteRecord(Record(Complete, resources, []));
      LaterOn(h0, h2, c.Now(), c.quiet);
      c.HistoryRespected();
      r := if ok then Created else Unrecorded;
    }

    /** The template resources, one after the other, up to the first that fails. */
    method ProvisionAll() returns (ok: bool)
      requires SoundPlan(c.me, items) && order == AllBuilts(items, |items|)
      requires forall i :: 0 <= i < |items| ==> HookFree(c.me, v0, items[i]) && Members(Parts(items[i])) <= plan
      requires Valid() && Planned() && resources == [] && used == {} && failing.None? && c.alive
      requires p.c == c && p.Valid() && p.started == [] && p.broken == {} && LogicalMine(c.me, v0)
      modifies this, c, p, p.waits
      ensures Planned() && p.Valid() && p.started <= order && old(c.journal) <= c.journal
      ensures Later(old(c.Now()), c.Now(), c.quiet && AllSturdy(c.me, items, c.broken, |items|))
      ensures c.deletes == old(c.deletes) && c.cut == old(c.cut) && c.removed == old(c.removed)
      ensures failing.None? || exists n :: 0 <= n < |items| && items[n].make == Hook(failing.value)
      ensures failing.Some? && c.alive ==> c.refusals > old(c.refusals)
      ensures ok ==>
                && Valid() && failing.None? && p.broken == {} && p.started == order && c.met == old(c.met)
                && resources == AllParts(items, |items|) && AllMakeable(c.me, v0, items, |items|)
                && (c.quiet ==> AllSturdy(c.me, items, c.broken, |items|)) && c.refusals == old(c.refusals)
      ensures !ok ==> Interrupted()
      ensures !ok && c.alive && c.refusals == old(c.refusals) && (c.alone || c.met == old(c.met)) ==> !AllMakeable(c.me, v0, items, |items|)
      ensures c.quiet && c.alone && AllMakeable(c.me, v0, items, |items|) && !AllSturdy(c.me, items, c.broken, |items|) ==>
                !ok && c.alive && failing.Some? && IdentOf(c.me, failing.value) in c.View()
    {
      hide Tracks, ThingsAfter, KeepsToItsOwn, Accounted, Seen, Later, Idents, Members, ValidOf, InterruptedOf, FromPlan, InTime, AsSpecified, Orderly, RecordIdents, Untouched,
        Lids, PartitionOf, CompletedReady, AllReady, Bookish, OwnersRespected, AllSturdy, AllMakeable, AllParts, AllAsSpecified, AllBuilts, BuiltsOf, SoundPlan, HookFree, ItemIdents, WellFormed, DistinctParts, Orphans, Sturdy, Makeable, New, LeftOver, DoomedOrder;
      ghost var q, h0 := c.quiet && AllSturdy(c.me, items, c.broken, |items|), c.Now();
      NothingYet(h0, q);
      RunStart(c.me, v0, c.record, plan, items, c.broken);
      ghost var doneIdents: set<Ident> := {};
      for n := 0 to |items|
        invariant Valid() && Planned() && failing.None? && p.Valid() && p.broken == {} && c.removed == old(c.removed)
        invariant Later(h0, c.Now(), q) && c.deletes == h0.deletes && c.cut == h0.cut && c.met == h0.met && c.refusals == h0.refusals
        invariant c.quiet ==> AllSturdy(c.me, items, c.broken, n) && Flawless(h0, c.Now())
        invariant AllMakeable(c.me, v0, items, n) && resources == AllParts(items, n)
        invariant used <= doneIdents && forall i :: n <= i < |items| ==> ItemIdents(c.me, items[i]) !! doneIdents
        invariant p.started == AllBuilts(items, n) && old(c.journal) <= c.journal
      {
        PlanStep(c.me, v0, items, c.broken, n);
        BuiltsPrefix(items, n + 1, |items|);
        ghost var h := c.Now();
        ok := Provision(items[n]);
        ghost var h1 := c.Now();
        QuietFacts(h, h1, c.quiet && Sturdy(c.me, items[n], c.broken));
        LaterLess(h, h1, c.quiet && Sturdy(c.me, items[n], c.broken), q);
        LaterOn(h0, h, h1, q);
        if !ok {
          return;
        }
        doneIdents := doneIdents + ItemIdents(c.me, items[n]);
      }
      ok := true;
    }

    /** deployInterleaved.  At whatever point the process dies, what was there is untouched, no label
        changes hands, the persisted record names everything this create made, and nothing was made before
        all that it depends on was ready.  When nothing fails it succeeds exactly if everything can be
        made.  A create that fails in a living process leaves, if its deletes succeed, what was there and
        what a rollback keeps, and one thing more: that of a hook that made it and then failed, unless the
        hook was a nested stack's.  That thing, and no other, is then in no record; a nested stack's is too
        where its delete failed. */
    method Run() returns (r: Outcome)
      requires SoundPlan(c.me, items) && c.Guaranteed() && c.alive && v0 == c.View()
      requires LogicalMine(c.me, v0) && forall i :: 0 <= i < |items| ==> HookFree(c.me, v0, items[i])
      requires B() == Books([], [], [], {}, {}, None) && p.c == c && p.Valid() && p.started == [] && p.broken == {} && p.from == |c.journal|
      requires order == AllBuilts(items, |items|)
      requires forall i :: 0 <= i < |items| ==> Members(Parts(items[i])) <= plan
      modifies this, c, p, p.waits
      ensures c.Guaranteed() && OwnersRespected(c.start, c.history) && Untouched(c.me, v0, c.View())
      ensures Later(old(c.Now()), c.Now(), c.quiet && AllSturdy(c.me, items, c.broken, |items|))
      ensures OnTime() && old(c.journal) <= c.journal && p.started <= order
      ensures (c.record == old(c.record) && c.View() == v0) || (c.record.Some? && Planned())
      ensures failing.None? || exists n :: 0 <= n < |items| && items[n].make == Hook(failing.value)
      ensures c.View() != v0 && c.record.value.status in {InProgress, Complete} ==> New(v0, c.View()) <= RecordIdents(c.me, c.record)
      ensures c.View() != v0 && c.record.value.status in {RolledBack, RollbackFailed} ==>
                Orphans(c.me, v0, c.View(), c.record) == New(v0, c.View()) * Stray(c.me, failing)
      ensures c.record.Some? && c.record != old(c.record) ==> c.record.value.status in {InProgress, Complete, RolledBack, RollbackFailed}
      ensures c.record.Some? && c.record != old(c.record) ==>
                && (c.record.value.status.RollbackFailed? ==> c.deletes > old(c.deletes))
                && (c.record.value.status.Complete? ==> r.Created? || r.Unrecorded?)
                && (c.record.value.status.InProgress? ==> c.refusals > old(c.refusals) || c.crashes > old(c.crashes))
                && (c.record.value.status.RolledBack? ==> r.Undone? && New(v0, c.View()) == LeftOver(c.me, v0, c.View(), B()))
      ensures r.Undone? && failing.Some? ==> c.refusals > old(c.refusals)
      ensures r.Undone? && c.deletes == old(c.deletes) && c.cut == old(c.cut) ==>
                && New(v0, c.View()) == LeftOver(c.me, v0, c.View(), B())
                && (failing.Some? && failing.value.nature.NestedStack? ==> IdentOf(c.me, failing.value) !in c.View())
                && c.removed == old(c.removed) + DoomedOrder(c.me, applied, true) + DoomedOrder(c.me, provisioned, true)
      ensures r.Created? ==> c.alive && c.record == Some(Record(Complete, resources, [])) && p.completed == Lids(order) && AllReady(order, c.journal, p.from)
      ensures r.Created? ==> c.refusals == old(c.refusals)
      ensures r.Created? || r.Unrecorded? ==>
                && resources == AllParts(items, |items|) && New(v0, c.View()) == Idents(c.me, resources) && AllMakeable(c.me, v0, items, |items|)
      ensures AsSpecified(c.me, ResourcesOf(order), v0, c.View())
      ensures r.Created? || r.Unrecorded? ==> AllAsSpecified(c.me, ResourcesOf(order), c.View())
      ensures r.NotRecorded? ==> c.View() == v0
      ensures r.NotRecorded? || r.Unrecorded? ==> c.refusals > old(c.refusals) || c.crashes > old(c.crashes)
      ensures r.Died? ==> c.crashes > old(c.crashes)
      ensures Flawless(old(c.Now()), c.Now()) ==>
                && (r.Created? <==> AllMakeable(c.me, v0, items, |items|) && (c.alone || c.met == old(c.met)))
                && (!r.Created? ==> r.Undone? && c.record.Some? && c.record.value.status.RolledBack?)
      ensures c.quiet && c.alone && AllMakeable(c.me, v0, items, |items|) && !AllSturdy(c.me, items, c.broken, |items|) ==>
                && r.Undone? && c.record.Some? && c.record.value.status.RolledBack? && failing.Some?
                && (!failing.value.nature.NestedStack? ==> IdentOf(c.me, failing.value) in c.View())
    {
      hide Tracks, ThingsAfter, KeepsToItsOwn, Accounted, Seen, Later, Idents, Members, ValidOf, InterruptedOf, FromPlan, InTime, AsSpecified, Orderly, RecordIdents, Untouched,
        Lids, PartitionOf, CompletedReady, AllReady, Bookish, OwnersRespected, AllSturdy, AllMakeable, AllParts, AllAsSpecified, AllBuilts, BuiltsOf, SoundPlan, HookFree, ItemIdents, WellFormed, DistinctParts, Orphans, Sturdy, Makeable, New, LeftOver, DoomedOrder;
      ghost var q, h0 := c.quiet && AllSturdy(c.me, items, c.broken, |items|), c.Now();
      NothingYet(h0, q);
      RunStart(c.me, v0, c.record, plan, items, c.broken);
      PlanIsOrderly(c.me, items, |items|);
      NothingMade(c.me, order, c.journal);
      NothingNew(c.me, ResourcesOf(order), v0);
      var wrote := c.WriteRecord(Record(InProgress, [], []));
      ghost var h := c.Now();
      LaterLess(h0, h, c.quiet, q);
      QuietFacts(h0, h, c.quiet);
      LaterOn(h0, h0, h, q);
      if !wrote {
        c.HistoryRespected();
        return NotRecorded;
      }
      var ok := ProvisionAll();
      ghost var h1 := c.Now();
      LaterOn(h0, h, h1, q);
      if !ok {
        r := Undo();
        LaterLess(h1, c.Now(), c.quiet, q);
        QuietFacts(h1, c.Now(), c.quiet);
        LaterOn(h0, h1, c.Now(), q);
        return;
      }
      h := c.Now();
      r := Finish();
      LaterLess(h, c.Now(), c.quiet, q);
      QuietFacts(h, c.Now(), c.quiet);
      LaterOn(h0, h, c.Now(), q);
      if r.Created? || r.Unrecorded? {
        MadeAsSpecified(c.me, items, v0, c.View());
      }
    }
  }

  /** Its hook, if it is made through one, works. */
  ghost predicate Sturdy(me: StackName, item: Item, broken: set<Ident>) {
    item.make.Hook? ==> IdentOf(me, item.make.res) !in broken
  }

  /** Nothing an earlier stack of the name made through the hook is left. */
  ghost predicate HookFree(me: StackName, v0: Things, item: Item) {
    item.make.Hook? ==> IdentOf(me, item.make.res) !in v0
  }

  /** It can be translated, and the names of its objects are free. */
  ghost predicate Makeable(me: StackName, v0: Things, item: Item) {
    && !item.make.Untranslatable?
    && (item.make.Objects? ==> Idents(me, item.make.rs) !! v0.Keys)
  }

  lemma ItemFacts(me: StackName, v0: Things, item: Item, plan: set<Resource>)
    requires WellFormed(item) && Members(Parts(item)) <= plan && HookFree(me, v0, item)
    ensures item.make.Nothing? ==> Parts(item) == [] && Makeable(me, v0, item)
    ensures item.make.Hook? ==>
              var r := item.make.res;
              && Parts(item) == [r] && r in plan && Hooked(r) && r.policy.Delete? && r.lid.base == item.base && ItemLids(item) == {r.lid}
              && ItemIdents(me, item) == {IdentOf(me, r)} && IdentOf(me, r) !in v0 && Makeable(me, v0, item)
    ensures item.make.Condition? ==>
              var r := item.make.res;
              && Parts(item) == [r] && r in plan && r.nature.SignalWait? && r.lid.base == item.base && ItemLids(item) == {r.lid}
              && Makeable(me, v0, item)
    ensures item.make.Objects? ==>
              var rs := item.make.rs;
              && Parts(item) == rs && ItemIdents(me, item) == Idents(me, rs) && (Makeable(me, v0, item) <==> Idents(me, rs) !! v0.Keys)
    ensures item.make.Untranslatable? ==> !Makeable(me, v0, item)
    ensures forall broken :: Sturdy(me, item, broken) <==> (item.make.Hook? ==> IdentOf(me, item.make.res) !in broken)
  {
    match item.make
    case Hook(r) =>
      assert Parts(item)[0] == r && r in Members(Parts(item));
      IdentsOne(me, r);
    case Condition(r) =>
      assert Parts(item)[0] == r && r in Members(Parts(item));
    case _ =>
  }

  lemma RollbackReady(me: StackName, v0: Things, view: Things, rec: Option<Record>, b: Books, alive: bool)
    requires InterruptedOf(me, v0, view, rec, b, alive)
    ensures DistinctIdents(me, b.applied) && AllDeletable(me, view, b.provisioned) && Bookish(me, v0, b) && ListOk(me, v0, b.provisioned)
    ensures forall i :: 0 <= i < |b.applied| ==> !b.applied[i].nature.SignalWait? && Deletable(me, view, IdentOf(me, b.applied[i]))
  {
    ListReady(me, v0, view, b.applied);
  }

  lemma PlanSettles(plan: set<Resource>, rec: Option<Record>, resources: seq<Resource>, status: Status)
    requires FromPlan(plan, rec, resources)
    ensures FromPlan(plan, Some(Record(status, resources, [])), resources)
  {
  }

  lemma OnlyResources(me: StackName, rec: Record)
    ensures rec.pending == [] ==> RecordIdents(me, Some(rec)) == Idents(me, rec.resources)
  {
  }

  lemma QuietFacts(h0: Health, h1: Health, quiet: bool)
    requires Later(h0, h1, quiet)
    ensures quiet ==> h1 == h0.(met := h1.met)
  {
  }

  lemma LaterLess(h0: Health, h1: Health, quiet: bool, less: bool)
    requires Later(h0, h1, quiet) && (less ==> quiet)
    ensures Later(h0, h1, less)
  {
  }

  lemma PlanGrows(plan: set<Resource>, rec: Option<Record>, resources: seq<Resource>, r: Resource)
    requires FromPlan(plan, rec, resources) && r in plan
    ensures FromPlan(plan, rec, resources + [r])
  {
    MembersSnoc(resources, r);
  }

  lemma PendingNamed(me: StackName, rec: Record)
    ensures Idents(me, rec.pending) <= RecordIdents(me, Some(rec))
  {
  }

  lemma MemberOf(rs: seq<Resource>, n: nat)
    requires n < |rs|
    ensures rs[n] in Members(rs)
  {
  }

  /** A part of the resource itself is not among what the resource waits for. */
  lemma ClearSnoc(started: seq<Built>, completed: set<LogicalId>, b: Built, item: Item)
    requires Clear(started, completed, item.after - {item.base}) && b.res.lid.base == item.base
    ensures Clear(started + [b], completed, item.after - {item.base})
  {
  }

  lemma ItIsNext(order: seq<Built>, started: seq<Built>, completed: set<LogicalId>, journal: seq<Note>, from: nat, b: Built, item: Item)
    requires started + [b] <= order && Clear(started, completed, item.after - {item.base}) && CompletedReady(completed, journal, from)
    requires b.after == item.after && b.res.lid.base == item.base
    ensures Turn(order, started, completed, journal, from, b)
  {
  }

  lemma ItIsFresh(me: StackName, order: seq<Built>, started: seq<Built>, completed: set<LogicalId>, journal: seq<Note>, from: nat, b: Built)
    requires Orderly(me, order) && Turn(order, started, completed, journal, from, b)
    ensures b.res.lid !in Lids(started) && started <= order && started + [b] <= order
  {
    NextIsFresh(me, order, started, b);
  }

  lemma PartsApart(me: StackName, item: Item)
    requires item.make.Objects? && WellFormed(item) && DistinctParts(me, item)
    ensures forall i, j :: 0 <= i < j < |item.make.rs| ==>
              IdentOf(me, item.make.rs[i]) != IdentOf(me, item.make.rs[j]) && item.make.rs[i].lid != item.make.rs[j].lid
    ensures forall i :: 0 <= i < |item.make.rs| ==> IdentOf(me, item.make.rs[i]) in Idents(me, item.make.rs) && item.make.rs[i].lid in ItemLids(item)
  {
  }

  lemma NoneThere(me: StackName, rs: seq<Resource>, v0: Things)
    requires forall i :: 0 <= i < |rs| ==> IdentOf(me, rs[i]) !in v0
    ensures Idents(me, rs) !! v0.Keys
  {
  }

  lemma StrayIsNew(me: StackName, v0: Things, view: Things, rec: Option<Record>, b: Books, alive: bool)
    requires InterruptedOf(me, v0, view, rec, b, alive)
    ensures b.failing.Some? ==> IdentOf(me, b.failing.value) !in v0
    ensures Untouched(me, v0, view)
  {
  }

  lemma LeftAtTheEnd(me: StackName, v0: Things, before: Things, after: Things, b: Books)
    requires b.failing.Some? ==> IdentOf(me, b.failing.value) !in v0
    requires b.failing.Some? && !b.failing.value.nature.NestedStack? ==>
               New(v0, after) * Stray(me, b.failing) == New(v0, before) * Stray(me, b.failing)
    ensures LeftOver(me, v0, before, b) == LeftOver(me, v0, after, b)
    ensures b.failing.Some? && !b.failing.value.nature.NestedStack? && IdentOf(me, b.failing.value) in before ==>
              IdentOf(me, b.failing.value) in after
  {
    if b.failing.Some? && !b.failing.value.nature.NestedStack? && IdentOf(me, b.failing.value) in before {
      assert IdentOf(me, b.failing.value) in New(v0, before) * Stray(me, b.failing);
    }
  }

  lemma CompleteCovers(me: StackName, v0: Things, view: Things, rec: Option<Record>, b: Books)
    requires ValidOf(me, v0, view, rec, b)
    ensures New(v0, view) <= RecordIdents(me, rec) && New(v0, view) == Idents(me, b.resources) && Untouched(me, v0, view)
    ensures RecordIdents(me, Some(Record(Complete, b.resources, []))) == Idents(me, b.resources)
    ensures Underway(rec)
  {
    assert Idents(me, []) == {};
  }

  lemma RunStart(me: StackName, v0: Things, rec: Option<Record>, plan: set<Resource>, items: seq<Item>, broken: set<Ident>)
    requires LogicalMine(me, v0)
    ensures ValidOf(me, v0, v0, Some(Record(InProgress, [], [])), Books([], [], [], {}, {}, None)) && Untouched(me, v0, v0) && New(v0, v0) == {}
    ensures FromPlan(plan, Some(Record(InProgress, [], [])), [])
    ensures AllSturdy(me, items, broken, 0) && AllMakeable(me, v0, items, 0) && AllParts(items, 0) == [] && AllBuilts(items, 0) == []
  {
    assert Members([]) == {} && Idents(me, []) == {};
  }

  lemma PlanStep(me: StackName, v0: Things, items: seq<Item>, broken: set<Ident>, n: nat)
    requires SoundPlan(me, items) && n < |items|
    ensures WellFormed(items[n]) && DistinctParts(me, items[n])
    ensures forall i :: n + 1 <= i < |items| ==> ItemIdents(me, items[i]) !! ItemIdents(me, items[n])
    ensures AllBuilts(items, n + 1) == AllBuilts(items, n) + BuiltsOf(items[n])
    ensures AllParts(items, n + 1) == AllParts(items, n) + Parts(items[n])
    ensures AllSturdy(me, items, broken, n + 1) <==> AllSturdy(me, items, broken, n) && Sturdy(me, items[n], broken)
    ensures AllMakeable(me, v0, items, n + 1) <==> AllMakeable(me, v0, items, n) && Makeable(me, v0, items[n])
    ensures AllSturdy(me, items, broken, |items|) ==> Sturdy(me, items[n], broken)
    ensures AllMakeable(me, v0, items, |items|) ==> Makeable(me, v0, items[n])
  {
  }

  ghost predicate AllSturdy(me: StackName, items: seq<Item>, broken: set<Ident>, n: nat) {
    forall i :: 0 <= i < n && i < |items| ==> Sturdy(me, items[i], broken)
  }

  ghost predicate AllMakeable(me: StackName, v0: Things, items: seq<Item>, n: nat) {
    forall i :: 0 <= i < n && i < |items| ==> Makeable(me, v0, items[i])
  }

  /** The resources of the first items, in order. */
  ghost function AllParts(items: seq<Item>, n: nat): seq<Resource>
    requires n <= |items|
  {
    if n == 0 then [] else AllParts(items, n - 1) + Parts(items[n - 1])
  }
}
