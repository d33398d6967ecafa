/** The entities of the stack engine: recorded resources, the things they stand for, records,
    and what one stack may do to the things of a cluster. */
module Stack {
  import Graph
  import opened Wrappers

  datatype StackName = StackName(name: string)

  /** A template resource's id, or one of the companion objects it emits ("id/part"). */
  datatype LogicalId = Main(base: Graph.Id) | Companion(base: Graph.Id, part: string)

  datatype ObjectName = ObjectName(apiVersion: string, kind: string, name: string)

  datatype Policy = Delete | Retain | RetainExceptOnCreate

  /** What a recorded resource stands for: a Kubernetes object, a wait condition (nothing to
      create), or something made through a hook: a nested stack, a custom resource's Function
      or a REST API. */
  datatype Nature = Object | SignalWait | NestedStack | CustomResource | RestApi

  datatype Resource = Resource(lid: LogicalId, target: ObjectName, nature: Nature, policy: Policy, spec: string)

  /** What identifies a created thing: the object's name, or the logical id of one that is not
      a Kubernetes object. */
  datatype Ident = Named(target: ObjectName) | Logical(owner: StackName, lid: LogicalId)

  datatype Thing = Thing(owner: Option<StackName>, spec: string)

  type Things = map<Ident, Thing>

  datatype Status = InProgress | Complete | RollingBack | RolledBack | RollbackFailed | Deleting | DeleteFailed

  datatype Record = Record(status: Status, resources: seq<Resource>, pending: seq<Resource>)

  function IdentOf(me: StackName, r: Resource): Ident {
    if r.nature.Object? then Named(r.target) else Logical(me, r.lid)
  }

  /** The things a list of resources stands for; a wait condition stands for none. */
  ghost function Idents(me: StackName, rs: seq<Resource>): set<Ident> {
    set i | 0 <= i < |rs| && !rs[i].nature.SignalWait? :: IdentOf(me, rs[i])
  }

  ghost predicate DistinctIdents(me: StackName, rs: seq<Resource>) {
    forall i, j :: 0 <= i < j < |rs| ==> IdentOf(me, rs[i]) != IdentOf(me, rs[j])
  }

  /** Made through a hook rather than applied. */
  predicate Hooked(r: Resource) {
    r.nature.NestedStack? || r.nature.CustomResource? || r.nature.RestApi?
  }

  /** The thing is as one of the resources specifies it. */
  ghost predicate Specified(me: StackName, rs: seq<Resource>, id: Ident, t: Thing) {
    exists i :: 0 <= i < |rs| && !rs[i].nature.SignalWait? && IdentOf(me, rs[i]) == id && t == Thing(Some(me), rs[i].spec)
  }

  /** Everything new is as one of the resources specifies it. */
  ghost predicate AsSpecified(me: StackName, rs: seq<Resource>, v0: Things, view: Things) {
    forall id :: id in view && id !in v0 ==> Specified(me, rs, id, view[id])
  }

  /** Every resource there is something to make for is there as it specifies. */
  ghost predicate AllAsSpecified(me: StackName, rs: seq<Resource>, view: Things) {
    forall i :: 0 <= i < |rs| && !rs[i].nature.SignalWait? ==>
      IdentOf(me, rs[i]) in view && view[IdentOf(me, rs[i])] == Thing(Some(me), rs[i].spec)
  }

  lemma SpecifiedPut(me: StackName, rs: seq<Resource>, v0: Things, view: Things, r: Resource)
    requires AsSpecified(me, rs, v0, view) && r in rs && !r.nature.SignalWait?
    ensures AsSpecified(me, rs, v0, view[IdentOf(me, r) := Thing(Some(me), r.spec)])
  {
    var i :| 0 <= i < |rs| && rs[i] == r;
  }

  lemma SpecifiedShrinks(me: StackName, rs: seq<Resource>, v0: Things, view: Things, after: Things)
    requires AsSpecified(me, rs, v0, view) && forall id :: id in after ==> id in view && after[id] == view[id]
    ensures AsSpecified(me, rs, v0, after)
  {
  }

  /** What is there of a resource whose thing no other resource stands for is as that resource specifies. */
  lemma OwnSpec(me: StackName, rs: seq<Resource>, v0: Things, view: Things, i: nat)
    requires AsSpecified(me, rs, v0, view) && DistinctIdents(me, rs) && i < |rs|
    requires IdentOf(me, rs[i]) in view && IdentOf(me, rs[i]) !in v0
    ensures view[IdentOf(me, rs[i])] == Thing(Some(me), rs[i].spec)
  {
    var j :| 0 <= j < |rs| && !rs[j].nature.SignalWait? && IdentOf(me, rs[j]) == IdentOf(me, rs[i]) && view[IdentOf(me, rs[i])] == Thing(Some(me), rs[j].spec);
  }

  /** Two objects are one thing exactly if they have the same API version, kind and name, two other
      resources of a stack if they have the same logical id; and no object is another resource's thing. */
  lemma OneThing(me: StackName, a: Resource, b: Resource)
    ensures IdentOf(me, a) == IdentOf(me, b) <==>
              || (a.nature.Object? && b.nature.Object? && a.target == b.target)
              || (!a.nature.Object? && !b.nature.Object? && a.lid == b.lid)
  {
  }

  lemma IdentsSnoc(me: StackName, rs: seq<Resource>, r: Resource)
    ensures Idents(me, rs + [r]) == Idents(me, rs) + (if r.nature.SignalWait? then {} else {IdentOf(me, r)})
  {
    var all := rs + [r];
    assert all[|rs|] == r && forall i :: 0 <= i < |rs| ==> all[i] == rs[i];
    forall id | id in Idents(me, rs)
      ensures id in Idents(me, all)
    {
      var i :| 0 <= i < |rs| && !rs[i].nature.SignalWait? && IdentOf(me, rs[i]) == id;
      assert all[i] == rs[i];
    }
  }

  lemma IdentsOne(me: StackName, r: Resource)
    ensures Idents(me, [r]) == if r.nature.SignalWait? then {} else {IdentOf(me, r)}
    ensures Idents(me, []) == {}
  {
    assert [r][0] == r;
  }

  lemma DistinctIdentsSnoc(me: StackName, rs: seq<Resource>, r: Resource)
    requires DistinctIdents(me, rs) && IdentOf(me, r) !in Idents(me, rs)
    requires forall i :: 0 <= i < |rs| ==> !rs[i].nature.SignalWait?
    ensures DistinctIdents(me, rs + [r])
  {
    assert forall i :: 0 <= i < |rs| ==> IdentOf(me, rs[i]) in Idents(me, rs);
  }

  // ---------------------------------------------------------------- things and whose they are

  predicate Mine(me: StackName, t: Thing) {
    t.owner == Some(me)
  }

  /** Identified by the logical id of one of this stack's resources. */
  predicate Belongs(me: StackName, id: Ident) {
    id.Logical? && id.owner == me
  }

  /** Carries this stack's label, or is named after one of its logical ids. */
  predicate Claimed(me: StackName, id: Ident, t: Thing) {
    Mine(me, t) || Belongs(me, id)
  }

  /** What other stacks may do to the cluster between two of this stack's calls. */
  predicate Rely(me: StackName, before: Things, after: Things) {
    && (forall k :: k in before && Claimed(me, k, before[k]) ==> k in after && after[k] == before[k])
    && (forall k :: k in after && Claimed(me, k, after[k]) ==> k in before && before[k] == after[k])
  }

  /** The things the operation can count on: all of them on a cluster it has to itself, what it
      claims otherwise. */
  ghost function Seen(me: StackName, alone: bool, things: Things): Things {
    map k | k in things && (alone || Claimed(me, k, things[k])) :: things[k]
  }
}
