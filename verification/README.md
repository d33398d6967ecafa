# Verified models of open-infra's replication mesh and stack engine

Two parts of open-infra fail silently when they are wrong: the multi-master replication mesh, where a
mistake is a lost or diverged write, and the CloudFormation stack engine, where it is an orphaned object or
another stack's object overwritten. This project models both, together with the template evaluator, and
proves what they promise over every input, every interleaving and every crash point.
`dafny verify dfyconfig.toml` checks all of it.

**The mesh** (`Hlc`, `Mesh`, `MeshInvariant`, `MeshTheorems`, `MeshLostWrites`, `Dialects`, `Batch`,
`Locks`, `Text`). A step system: sites with a Hybrid Logical Clock and a table, edges along which change
capture forwards every accepted row, and a bag of messages in flight. Steps are native writes, deliveries
(acknowledged or to be redelivered, in any order) and re-captured events. Physical clock readings are
arbitrary integers and may go backwards. On top of the steps: the three SQL dialects of the guarded upsert
in three-valued logic, the sink's batching, retry and dead-letter loop as a class, and the row-lock protocol
of concurrent sinks.

**The stack engine** (`Graph`, `Readiness`, `Stack`, `History`, `Cluster`, `Ownership`, `Teardown`,
`Timing`, `Settling`, `Deploy`, `Planning`, `Interleaved`, `InterleavedPlanning`, `Recover`, `Lifecycle`,
`Tenants`). The cluster is a class: a map from identity to (stack label, spec) with atomic GetLabels, Create, Apply, hook calls and Delete, each of
which may fail; between any two calls other stacks may change the map, and the process may die. A dead
process's remaining calls do nothing, so a postcondition holds at every crash point. Three accounts run along:

- what went wrong (`Health`: deaths, refused calls, refused deletes, deletes cut short by a death, names met
  that are another's). Every operation says which entry must have moved for it to fall short, so it cannot
  fail for nothing; on a `quiet` cluster nothing goes wrong and it must succeed.
- who did what (`history`: every mutation by this stack and by the others, from `start`). The things always are
  what the history makes of `start`. That this stack kept to its own is part of every operation's contract;
  that all the stacks' promises hold together is `History.PromisesCompose`, and `Tenants.OwnershipHolds` derives
  them from what an operation checks before each call.
- what was made when (`journal`: every write of this stack, in the order of the history, and every wait that
  passed, in between). That nothing is made before all it depends on is ready is said of the journal
  (`Timing.InTime`), so it covers the thing in flight when a create fails or dies.

`alone` says that no other stack is at work, which the claims about the whole map need; otherwise `View()` is
what this stack can rely on.

**The evaluator** (`Conditions`, `Resolver`, `Expressions`, `Nested`, `NestedMeaning`, `Flatten`,
`FlattenMeaning`, `FlattenIndependent`, `FlattenLimits`, `FlattenExamples`, `Cidr`, `Base36`, `BucketName`;
`Wrappers` holds the Option type). Memoised condition evaluation against a definition of what the condition
equations mean; nested-stack flattening against an evaluation of the parent beside its children;
subnet carving; base 36 and generated bucket names.

## What the code does not do

Each is proved below: a run or a template that shows it, and exactly when the promise does hold.

- MySQL and SQL Server observe only the physical half of a version. A mesh converges again after a native
  write if and only if the write's stamp exceeds the row it overwrites; on those engines, whatever the physical
  clocks read, a reachable run violates that and its sites disagree for good (`MeshLostWrites`).
  `apply-sink/README.md:29` calls the MySQL version a millisecond clock; the trigger keeps a full clock row, and
  the model follows the trigger.
- `cfn/naming.go:171-174` says a generated bucket name never starts with `sthree-`. The prefix is stripped
  once, so a stack `sthree` with a bucket `sthree` gets such a name; `BucketName` gives the exact heads.
- `cfn/intrinsics.go:91-95` says a condition that refers to itself is a finding. One that does so only
  behind a short circuit is not; a finding is recorded exactly when the condition equations have no
  solution (`Resolver`).
- Flattening promises never to mis-wire (`cfn/nested.go:12-17`). A stack Output that passes on a Parameter
  bound to another stack's Output is substituted once and left dangling: meaning is kept if and only if no
  such output is read (`FlattenMeaning.FlattenPreserves`). A parent Parameter named like a prefixed id captures
  it: a child's reference keeps its value if and only if there is no such parameter or it has the very value
  (`FlattenLimits.RefKeptIff`). A child's `Fn::FindInMap` reads the parent's Mappings, and keeps its value if and
  only if both templates hold the same under the keys (`FlattenLimits.FindKeptIff`). `FlattenExamples` has a
  parent and its children for each.
- An interleaved create that rolled back can leave a thing no record names (`cfn/deploy.go:951-976`). It can only be
  the thing of a hook that made it and then failed: of a custom resource or a REST API (whose own clean-up
  ignores its error, `console-api/cmd/aws-shim/apigateway_v1_cfn.go:36-39`) always when it was made, of a
  nested stack only where its delete failed too (`Interleaved.Creation.Run`). `Lifecycle.HookLeavesOrphan` is a run
  in which nothing else goes wrong and the record says ROLLBACK_COMPLETE.
- A rolled-back create's record still lists every planned name. A completed delete spares every object of
  others if and only if no resource it deletes by name is called like one (`Recover.Destroy`), and after a
  create that another stack's object made roll back it does remove that object
  (`Lifecycle.DestroyAfterRollbackTakesOthers`).
- Recovery of an interrupted create removes a leftover of an earlier stack of the name if and only if the record
  names it for removal (`Recover.RecoverRepeatedly`). Where a name cannot be changed to avoid the leftover
  (`cfn/deploy.go:569-575`), a create that writes its record and dies is enough to lose it
  (`Lifecycle.LeftoverIsTaken`).

## Model

| member | source | states |
|---|---|---|
| `Hlc.PackingRoundTrips` | apply-sink/main.go:553-554 | unpacking inverts packing exactly while lc < 65536, and packing inverts unpacking always |
| `Hlc.PackingPreservesOrder` | apply-sink/main.go:553-554 | comparing stamps is comparing (pt, lc) lexicographically |
| `Hlc.TickRaisesStampIffInRange` | apply-sink/main.go:553-553 | a tick raises the stamp at every physical reading if and only if lc < 65536: the bound is sharp |
| `Hlc.MergeExceedsBoth` | apply-sink/main.go:554-554 | the Postgres observe moves strictly past the local clock and the observed version |
| `Hlc.PhysicalObserveCoversIff` | apply-sink/main.go:345-358 | after the MySQL or SQL Server observe the next stamp exceeds the observed version exactly under a stated condition on the clock and the reading |
| `Hlc.ClockNeverFalls` | apply-sink/main.go:345-358 | over any mix of ticks and observes of either kind the packed clock never falls |
| `Hlc.StampsIncrease` | apply-sink/main.go:345-358 | over any mix of ticks and observes, with any readings, the stamps a site hands out strictly increase |
| `Hlc.HlcState.TickRow` | apply-sink/main.go:553-553 | the in-place update is the tick, and returns a version above the old clock's |
| `Hlc.HlcState.ObserveRow` | apply-sink/main.go:554-554 | the in-place update is the merging observe, and ends above the observed version |
| `Hlc.HlcState.ObserveRowPhysical` | apply-sink/main.go:309-311 | the in-place update raises pt alone |
| `MeshInvariant.PostgresAdvances` | apply-sink/main.go:553-555 | in every state that keeps the invariant a native write on a Postgres site exceeds the row it overwrites |
| `MeshInvariant.NativeInv` | apply-sink/main.go:345-358 | a native write whose stamp advances keeps the invariant: stamps unique, every write covered at its origin, every row held or under way along every edge |
| `MeshInvariant.DeliverInv` | apply-sink/main.go:856-879 | any delivery, skipped echoes and redeliveries included, keeps the invariant |
| `MeshInvariant.RecaptureInv` | apply-sink/main.go:562-600 | re-captured old events keep the invariant |
| `MeshInvariant.RunInv` | apply-sink/main.go:553-555 | the invariant holds after every run of any length |
| `MeshTheorems.MeshConverges` | apply-sink/main.go:1304-1326 | in every run over every strongly connected topology, once no message is in flight all sites hold the same table, each key at its greatest (version, origin) |
| `MeshTheorems.QuiescentConverges` | apply-sink/main.go:874-879 | convergence from the invariant alone, echoes dropped at their origin included |
| `MeshTheorems.CausalityRespected` | apply-sink/main.go:553-555 | versions strictly increase along every happened-before chain through Postgres sites, across any number of sites; stamps are unique; no clock passes the largest physical reading taken |
| `MeshTheorems.DeliverShrinksMissing` | apply-sink/main.go:1316-1325 | an accepted apply strictly shrinks the (site, write) pairs still owed, and no delivery enlarges them |
| `MeshTheorems.MissingBoundsAccepted` | apply-sink/main.go:1132-1160 | accepted applies plus pairs still owed are bounded by the pairs owed before and the native writes |
| `MeshTheorems.NoEchoStorm` | apply-sink/main.go:874-879 | a whole run accepts at most sites - 1 applies and captures at most sites * degree messages per native write |
| `MeshTheorems.DrainIsBounded` | apply-sink/main.go:604-658 | acknowledged deliveries are bounded in number by what is in flight and owed |
| `MeshTheorems.Drains` | apply-sink/main.go:604-658 | from every reachable state the messages can be drained, and the mesh has then converged |
| `MeshLostWrites.ReconvergesIffAdvances` | apply-sink/main.go:345-358 | from a quiescent mesh, one native write on any engine and any draining order: the mesh converges again if and only if the stamp exceeds the overwritten row |
| `MeshLostWrites.PhysicalObserveDiverges` | apply-sink/main.go:309-311 | on MySQL and SQL Server, at every physical reading, a reachable run loses a write: however the messages drain, the sites disagree |
| `Dialects.GuardIsNewer` | apply-sink/main.go:1304-1326 | the SQL guard is true exactly when the event is newer by (version, origin) |
| `Dialects.UpsertByColumn` | apply-sink/main.go:1221-1331 | column by column: a new row has the event's values and nulls elsewhere; a row the event is newer than takes every value the event carries, key columns apart; any other row stays |
| `Dialects.SqlServerRefusesIff` | apply-sink/main.go:1304-1326 | SQL Server refuses exactly an event that carries no column, or one to update without both the version and the origin |
| `Dialects.DialectsAgree` | apply-sink/main.go:1221-1331 | for every target row and every event carrying version and origin, the Postgres upsert, the SQL Server MERGE and the MySQL pair of statements leave the same row |
| `Dialects.MysqlAgreesIff` | apply-sink/main.go:1160-1217 | MySQL and Postgres agree on every target row if and only if the event carries the version or has nothing to update |
| `Dialects.OnDuplicateKeySplits` | apply-sink/main.go:1160-1217 | the one-statement left-to-right form writes a newer version but keeps the old origin unless it sorts earlier, and keeps every later column |
| `Locks.PartsInjective` | apply-sink/main.go:884-899 | length-prefixed key parts identify the key values, whatever characters these hold |
| `Locks.SortKeyInjective` | apply-sink/main.go:884-899 | the sort key identifies the row when identifiers are free of the separator |
| `Locks.ReachableKeeps` | apply-sink/main.go:793-821 | in every reachable state each sink owns exactly the rows it has locked so far |
| `Locks.NoDeadlock` | apply-sink/main.go:793-821 | in every reachable state of any number of sinks no chain of waits closes into a cycle |
| `Locks.SomeoneProceeds` | apply-sink/main.go:793-821 | while a transaction is open, some transaction can take its next lock or commit |
| `Batch.AbsorbIsMaximum` | apply-sink/main.go:1304-1326 | applying a sequence leaves, for each key, the greatest of the old row and the events |
| `Batch.MaximumUnique` | apply-sink/main.go:1304-1326 | there is one such table when stamps are distinct |
| `Batch.OrderIrrelevant` | apply-sink/main.go:793-821 | any two sequences with the same members, whatever order and repetition, leave the same table |
| `Batch.RedeliveryIsIdle` | apply-sink/main.go:779-821 | applying again what is already applied changes nothing |
| `Batch.SortedLocksOrdered` | apply-sink/main.go:809-809 | a batch sorted by sort key takes its locks in the order the deadlock theorem needs |
| `Batch.SortEntries` | apply-sink/main.go:809-809 | the sort leaves the same entries, never descending by sort key |
| `Batch.Sink.TryBatch` | apply-sink/main.go:793-821 | one transaction: every readable change of another site covered and nothing else written, in sort order, or nothing at all; it is applied unless the database fails or a message cannot be read |
| `Batch.Sink.ApplyBatch` | apply-sink/main.go:779-791 | the same over up to four attempts: it gives up as transient only after four failures |
| `Batch.JoinedIsForeign` | apply-sink/main.go:856-879 | joining the acknowledged entries covers every acknowledged change of another site; a changed row is that of such a change, and a site's own echoes and tombstones change nothing |
| `Batch.Sink.HandleEach` | apply-sink/main.go:624-656 | message by message the same of what is acknowledged; what can be read is acknowledged unless the database failed; what cannot goes back below its kind's limit and is dead-lettered at it |
| `Batch.Sink.HandleFetch` | apply-sink/main.go:604-658 | an acknowledged change of another site is covered by the target's row, no other change is written and no row set back; what can be read is acknowledged unless the database failed; a delivery at the limit leaves the stream applied or dead-lettered |
| `Batch.BatchIsDeliveries` | apply-sink/main.go:793-821 | a batch is a run of mesh deliveries, so the mesh theorems cover it |
| `Graph.Order` | cfn/graph.go:18-81 | succeeds if and only if the dependencies are acyclic; then the result is the least topological permutation by template position; otherwise the reported set is exactly what is on or downstream of a cycle, in template order |
| `Graph.GreedyIsLeast` | cfn/graph.go:55-68 | always placing the earliest ready resource gives the lexicographically least topological order |
| `Graph.LeastUnique` | cfn/graph.go:30-44 | the order does not depend on the order, repetition or non-resource entries of the dependency lists |
| `Graph.CountEdges` | cfn/graph.go:25-44 | in-degrees and dependents count each distinct edge once |
| `Graph.InsertByPos` | cfn/graph.go:88-94 | insertion keeps the ready list sorted by position and adds exactly the id |
| `Graph.PlacedNotTangled` | cfn/graph.go:55-68 | nothing that is placed lies on or downstream of a cycle |
| `Graph.LeftOverIsTangled` | cfn/graph.go:70-80 | everything left over when nothing is ready lies on or downstream of a cycle |
| `Readiness.Ancestors` | cfn/readiness.go:30-43 | exactly the resources some path of dependencies leads to, over any lists, cyclic ones included |
| `Readiness.BuiltOrderRespectsAfter` | cfn/deploy.go:547-554 | in the built order everything a resource transitively depends on comes earlier |
| `Planning.BuiltIsSound` | cfn/deploy.go:547-554 | the order built from a topological order of the template is a sound create plan |
| `Planning.CreateFromTemplate` | cfn/deploy.go:547-554 | a template is refused exactly if its dependencies are circular; otherwise, wherever the create fails or dies, nothing was made before every part of all the template says it depends on, directly or not, was ready; at CREATE_COMPLETE, reached exactly if every name is free when nothing fails, every part is there and ready |
| `InterleavedPlanning.CreateInterleaved` | cfn/deploy.go:1015-1026 | the same for the interleaved create, hooks included: from the template's own dependency lists to what was made when, and everything new is as the template specifies at every exit |
| `InterleavedPlanning.ItemsAreSound` | cfn/deploy.go:1015-1026 | the template resources in dependency order, each with its ancestors, are a sound plan of the interleaved create |
| `Readiness.DueSplits` | cfn/readiness.go:52-67 | taking the due waits splits the queue: nothing is lost or duplicated |
| `Readiness.WaitQueue.TakeDue` | cfn/readiness.go:52-67 | returns exactly the queued waits the next resource depends on and keeps the rest in order |
| `Ownership.ApplyOwned` | cfn/deploy.go:171-239 | applies only to an object this operation created or creates; with nothing refused it fails only on a name held by another stack or by a leftover; on any failure the rest is untouched |
| `Stack.OneThing` | cfn/recover.go:189-206 | two objects are one thing exactly if API version, kind and name agree, two other resources of a stack if their logical ids do |
| `History.GuaranteeGivesRely` | cfn/deploy.go:171-239 | what the engine allows one stack to do is what every other stack relies on |
| `History.OthersLeaveMineAlone` | cfn/deploy.go:144-156 | over any interleaving of other stacks' mutations this stack's things, and the set of them, are untouched |
| `History.HonestRespects` | cfn/deploy.go:144-239 | over any such history each mutation is by the owner of what it touches and a thing's label is constant while it exists |
| `History.PromisesCompose` | cfn/deploy.go:144-239 | if each stack keeps to its own as long as the others have, they all do: any such history respects owners and labels |
| `Tenants.CallIsHonest` | cfn/deploy.go:171-239 | what an operation checks locally, the label it just read and the set of what it created, makes its mutation one of an absent thing or its own, whatever others did since |
| `Tenants.OwnershipHolds` | cfn/deploy.go:144-239 | every interleaving of any number of stacks' creates, rollbacks and recoveries, crashes included, keeps every mutation to its owner and every label constant, and seen from any stack the others leave its things alone |
| `Teardown.RollbackCreate` | cfn/destroy.go:165-195 | removes exactly the applied objects a rollback does not keep, newest first, and nothing else: policy Retain stays, Delete and RetainExceptOnCreate go; it succeeds whenever every delete does |
| `Teardown.TakeDown` | cfn/destroy.go:285-331 | one resource: removed, or reported as remaining, which takes a refusal or a death, and of a custom resource or REST API a refusal; with the label check another stack's object is spared |
| `Teardown.TeardownAll` | cfn/destroy.go:259-339 | what is not in the remaining list is gone and retained entries stay listed; it takes a failure to stop it; what every entry keeps by policy (Retain, and RetainExceptOnCreate but on a rollback) is still there as it was; unstopped, what no entry keeps is gone |
| `Settling.Progress.SettleWaits` | cfn/readiness.go:108-147 | waits finish in any order; on a first failure that resource is reported and only finished ones complete |
| `Settling.Progress.Settle` | cfn/deploy.go:739-750 | every started resource stays in exactly one of completed, waiting or failed, for every interleaving and every first failure |
| `Settling.Progress.Await` | cfn/deploy.go:752-772 | when it returns successfully all created so far that a resource depends on is complete, and what is complete has passed its wait |
| `Timing.MadeInTime` | cfn/deploy.go:752-772 | a resource made when all it depends on has passed its wait leaves the whole journal in time |
| `Deploy.Deployment.Provision` | cfn/deploy.go:752-772 | one round keeps the partition, the record, the footprint and that no thing, the one in flight included, was made before what it depends on was ready; it takes a failure or a taken name to stop it |
| `Deploy.Deployment.Rollback` | cfn/deploy.go:701-725 | if every delete succeeds the cluster is what it was plus exactly the retained objects made, the others deleted newest first, whatever becomes of the record write |
| `Deploy.Deployment.Run` | cfn/deploy.go:679-790 | at every crash point and failure nothing that was there is touched, no label changes hands, every object made is named by the record and nothing was made before what it depends on was ready; when nothing fails it succeeds exactly if every planned name is free; a failed create whose deletes succeed restores the cluster |
| `Interleaved.Creation.Intend` | cfn/deploy.go:984-991 | the write-ahead record names what is about to be made before it is made |
| `Interleaved.Creation.MakeHooked` | cfn/deploy.go:1039-1100 | custom resources, nested stacks and REST APIs, whose hook may fail and leave its thing: covered by the record at every crash point, and as specified |
| `Interleaved.Creation.ApplyObjects` | cfn/deploy.go:1120-1171 | objects: covered by the record at every crash point, and each as its own resource specifies |
| `Interleaved.Creation.Rollback` | cfn/deploy.go:951-982 | what no record names is exactly the failed hook's thing, if it is there; if every delete succeeds only what a rollback keeps is left beside it, a nested stack's gone too, in the stated order |
| `Interleaved.PlanIsOrderly` | cfn/deploy.go:1015-1026 | the parts of a plan whose template resources come after what they depend on are an order to create in |
| `Interleaved.MadeAsSpecified` | cfn/deploy.go:1156-1162 | when what is new is what the plan makes, every object and hook thing is there as its own resource specifies |
| `Interleaved.Creation.Run` | cfn/deploy.go:908-1190 | at every crash point the record covers everything made so far, everything new is as its resource specifies, and nothing was made, by a hook or as an object, before all that it depends on was ready; when nothing fails it succeeds exactly if everything can be made, and then all of it is there as specified and ready; after a rollback a thing is in no record if and only if it is there and is that of the hook that failed |
| `Lifecycle.HookLeavesOrphan` | cfn/deploy.go:1039-1050 | a run that ends rolled back and leaves a custom resource's or REST API's thing in no record |
| `Recover.UnionIsFaithful` | cfn/recover.go:189-206 | the union names each identity of either list once, first entry kept |
| `Recover.UnionResources` | cfn/recover.go:189-206 | the loop over the seen map computes that union |
| `Recover.RecoverCreate` | cfn/recover.go:96-127 | removes only what the record names and this stack labels; an entry leaves the record only when its object is gone; it takes a failure or a death to stop it; policy Retain stays; rolled back means objects and nested stacks of policy Delete or RetainExceptOnCreate are gone |
| `Recover.RecoverRepeatedly` | cfn/recover.go:55-78 | interrupted and repeated any number of times: rolled back whenever nothing is refused and there is one attempt more than deaths; then an object that was there is still there if and only if the record does not name it for removal or it is not this stack's; Retain stays throughout |
| `Recover.Destroy` | cfn/destroy.go:25-113 | a protected stack or a Snapshot policy is refused with nothing touched; pending leftovers only under this stack's label, then resources by name; it takes a failure to keep it from completing; completed on a cluster of its own it spares every object of others if and only if no resource deleted by name is called like one; on failure every undeleted entry stays in the record; a thing whose entries all have policy Retain or RetainExceptOnCreate is still there as it was, and after a delete in which nothing fails that of a Delete entry is gone |
| `Recover.RecoverDelete` | cfn/recover.go:167-185 | a resumed delete keeps the same promises, completes when nothing fails, and is settled as failed if it cannot finish, a refused one too |
| `Lifecycle.RecoveredIsClean` | cfn/recover.go:96-127 | after a create and a completed recovery the old cluster is intact and only retained planned objects are new |
| `Lifecycle.CreateThenRecover` | cfn/deploy.go:679-695 | a create interrupted anywhere, then recovery interrupted and repeated: with nothing refused and enough attempts it ends complete or rolled back (or died before its first record), complete when nothing fails and the names are free, and rolled back means no orphan: the old cluster plus retained planned objects |
| `Lifecycle.InterleavedIsClean` | cfn/deploy.go:984-991 | a record that covers what was made, then a completed recovery: all that was there is there, leftovers under planned names apart, and what is new is kept on rollback or torn down through a hook |
| `Lifecycle.InterleavedThenRecover` | cfn/deploy.go:908-1190 | the same for the interleaved create, complete with all of its plan made when nothing fails and all of it can be; rolled back, what is new is kept on rollback, torn down through a hook, or the thing of the hook that failed; what is new is as specified throughout |
| `Lifecycle.CreateThenDestroy` | cfn/destroy.go:25-113 | a create and a delete: only this stack's objects go and only retained planned ones are left; both complete when nothing fails and the names are free; objects of policy Retain or RetainExceptOnCreate are then there as specified, those of policy Delete gone |
| `Lifecycle.LeftoverIsTaken` | cfn/recover.go:96-127 | a create that only wrote its record, and a recovery in which nothing goes wrong: a leftover under this stack's label is gone, though the create never made it |
| `Lifecycle.DestroyAfterRollbackTakesOthers` | cfn/destroy.go:25-113 | a create rolled back on another stack's object and a delete, nothing going wrong: that object is gone |
| `Conditions.EvalIsWorth` | cfn/intrinsics.go:137-218 | the evaluator computes what each operator means, said without an order of evaluation: And is all, Or is some, Not negates one, Equals compares two values as printed, If is the branch its condition picks |
| `Conditions.EvalLocal` | cfn/intrinsics.go:137-218 | evaluation depends on the condition values it asks for and on nothing else, short circuits included |
| `Conditions.SolutionOperators` | cfn/intrinsics.go:186-218 | in a solution Not of a condition is its negation, And and Or over conditions are all and some, Equals of literals or parameters is that they print alike, If of conditions is the one picked, and Not and Equals with the wrong number of arguments are false |
| `Conditions.SolutionUnique` | cfn/intrinsics.go:80-119 | the condition equations have at most one solution without circular support |
| `Conditions.AcyclicHasSolution` | cfn/intrinsics.go:90-119 | without a cycle the plain recursive meaning is that solution |
| `Resolver.Resolver.Condition` | cfn/intrinsics.go:96-119 | terminates on every template, restores busy and where, and answers with the value of the condition's expression unless a self-reference is reported |
| `Resolver.Resolver.Resolve` | cfn/intrinsics.go:137-218 | the answer is the expression's value under the conditions remembered by then, all it asked for among them |
| `Resolver.Resolver.Choose` | cfn/intrinsics.go:543-553 | Fn::If evaluates its condition and then only the branch it picks |
| `Resolver.Resolver.EvalConditions` | cfn/intrinsics.go:80-89 | for the names in any order: a self-reference is reported exactly when the equations have no solution; otherwise the remembered values are the solution, and for acyclic templates the recursive meaning; every operator then has its meaning on the remembered values |
| `Resolver.ShortCircuitHidesCycle` | cfn/intrinsics.go:91-119 | a condition that names itself behind a short circuit has a value and draws no finding |
| `NestedMeaning.RewritePreserves` | cfn/nested.go:202-259 | a rewritten child value evaluates in the merged template to what it evaluates to in the child with bound parameters, and every name in it resolves |
| `NestedMeaning.FindPreserved` | cfn/nested.go:202-259 | a rewritten lookup keeps its value if and only if both templates' mappings hold the same under its keys |
| `NestedMeaning.OutputsPreserve` | cfn/nested.go:290-330 | rewriting output reads is never refused on resolving names; no name dangles exactly when the outputs read resolve, and then the value is the same |
| `NestedMeaning.NotCaptured` | cfn/nested.go:138-147 | a parent expression whose names resolve is not captured by ids added later |
| `Flatten.BindParameters` | cfn/nested.go:121-136 | refuses exactly when some parameter has neither a value nor a Default; otherwise binds each, to the passed value where there is one |
| `Flatten.InlineOneStack` | cfn/nested.go:82-169 | refuses if and only if something cannot be rewritten or an id collides; otherwise merges every child resource under its prefixed id and leaves the rest alone; type, policy and dependencies are carried over, none of them a Condition, and nothing unsupported is accepted |
| `Flatten.FlatKeepsOrder` | cfn/nested.go:172-290 | in the flat template an inlined resource depends on exactly the prefixed ids of what the child's resource names, all of them the child's; type and policy are the child's; and a plain resource keeps all but its Properties as it was |
| `Flatten.PrefixSortsFirst` | cfn/nested.go:59-70 | a prefixed id never sorts before its stack, so it cannot equal a stack already inlined and deleted |
| `Flatten.FlattenNested` | cfn/nested.go:35-78 | no stack: unchanged; otherwise refused exactly when the stacks are incompatible or an output read is missing, else the merged template with reads rewritten; dependencies, types and policies carried over |
| `FlattenMeaning.FlattenPreserves` | cfn/nested.go:35-78 | for every coherent evaluation of parent and children in scope the flat template is not refused, and gives every resource and output its value with every name resolving if and only if no output read passes on another stack's output |
| `FlattenMeaning.FlatUnique` | cfn/nested.go:59-78 | the flat template is fixed by the input: map iteration order does not matter |
| `FlattenLimits.RefKeptIff` | cfn/nested.go:138-147 | a child's reference to its own resource keeps its value through flattening if and only if no parent parameter is named like the prefixed id or it has that very value |
| `FlattenLimits.FindKeptIff` | cfn/nested.go:202-259 | a child's lookup keeps its value through flattening if and only if the parent's mappings hold under its keys what the child's do |
| `FlattenExamples.CaptureHappens` | cfn/nested.go:138-147 | a parent and a child whose flat template reads the parent's parameter instead of the child's resource |
| `FlattenExamples.LookupHappens` | cfn/nested.go:202-259 | a parent and a child whose lookup finds the parent's entry in the flat template |
| `FlattenExamples.ChainedOutputDangles` | cfn/nested.go:290-330 | a parent and two children whose flat template reads an output of a stack it no longer has |
| `FlattenExamples.FlatExists` | cfn/nested.go:35-78 | compatible stacks always have a flat template, unless an output read cannot be rewritten |
| `FlattenIndependent.IndependentCoheres` | cfn/nested.go:121-136 | when no stack parameter reads another stack, a coherent evaluation exists for any parent environment |
| `FlattenIndependent.IndependentPreserved` | cfn/nested.go:35-78 | and then flattening in scope always preserves meaning |
| `Cidr.FnCidr` | cfn/intrinsics.go:420-444 | accepts exactly the counts and sizes that fit, and returns the subnets that tile the block from its network address, no 32-bit addition wrapping |
| `Cidr.NetworkAligned` | cfn/intrinsics.go:421-437 | the network address is the block's own alignment and the block ends inside the address space |
| `Cidr.SubnetFits` | cfn/intrinsics.go:437-442 | every subnet is aligned, inside the block, and computed without wrap-around |
| `Cidr.TilesDisjoint` | cfn/intrinsics.go:437-442 | subnets are in increasing order and pairwise disjoint |
| `Cidr.TilesCover` | cfn/intrinsics.go:433-442 | at the maximum count an address is in the block if and only if it is in some subnet |
| `Base36.DivideInPlace` | cfn/naming.go:211-222 | the byte array is divided by 36 where it lies, no byte overflowing; the zero flag means the quotient is zero |
| `Base36.Base36` | cfn/naming.go:206-231 | terminates; the digits denote what the bytes denote, and no other string without a spare zero does |
| `Base36.CanonicalUnique` | cfn/naming.go:206-231 | one canonical base 36 string per number |
| `Base36.LongEnoughIff` | cfn/naming.go:177-177 | the rendering has more than n digits exactly when the number is at least 36 to the n |
| `BucketName.CollapseHyphens` | cfn/naming.go:306-311 | however often the replacing pass has to repeat, it ends with every run of hyphens squeezed to one |
| `BucketName.PassKeepsSqueezed` | cfn/naming.go:307-309 | one non-overlapping replacing pass leaves the squeezed form unchanged |
| `BucketName.Shortened` | cfn/naming.go:179-193 | cut to exactly the room, each part a prefix of itself, a part of at most half left whole and a longer one keeping at least half |
| `BucketName.GeneratedBucketName` | cfn/naming.go:175-203 | the slice panics exactly below 36 to the 11th; otherwise the name obeys the length, character, hyphen and `xn--` rules, and starts with `sthree-` exactly for the stated heads |
| `BucketName.ReservedNameIsGiven` | cfn/naming.go:198-203 | stack `sthree` with bucket `sthree` is such a head |

## Left out

- Deletes in the mesh and batch theorems: the delete statement carries no version guard (apply-sink/main.go:1334-1347), so those claims are about upserts.
- Partial rows (the unavailable-value placeholder, apply-sink/main.go:1095-1119) in the mesh theorems; `Dialects` covers arbitrary column subsets of one event.
- Dead-lettered messages in convergence: a message parked on the dead-letter subject counts as still in flight. The mm-prep backfill of old rows.
- `Locks.NoDeadlock`: covers locks on replicated rows; the lock on the clock's own one-row table is not modelled.
- `MeshTheorems.CausalityRespected`: a native write is a statement of one row. SQL Server's trigger stamps all rows of a statement with one version (apply-sink/main.go:309-312), so that there stamps are unique per key only, which is all convergence compares.
- Sites are ranked by the order of the origin column; database collations are not modelled.
- One-way migration without a conflict column, where same-key order within a batch is not promised.
- SQL text, drivers, NATS, kubectl, YAML and JSON encoding: only the state change each call stands for.
- The update path (`Update`, `restorePrior`, `recoverUpdate`), which needs the prior template's whole translation.
- Shared companion objects and identical duplicate companions in the create plan: plans here name distinct objects.
- Physical-name, table-name and requirement checks, Outputs, signals and VM waits are steps that succeed or fail arbitrarily; event history and messages are not recorded.
- `Lifecycle.InterleavedThenRecover`: custom resources and REST APIs, whose deletion hook is best effort (cfn/destroy.go:313-327), may survive a recovery.
- `Tenants.OwnershipHolds`: a delete of a completed stack's resources by name (cfn/destroy.go:94-97) checks no label and is not among its calls; `Recover.Destroy` says when one spares what is not its own.
- Lost acknowledgements: a create, apply, record write or batch commit that is reported as failed to a living process is taken to have had no effect; hook calls and deletes may have had theirs.
- `Lifecycle.InterleavedThenRecover`: starts with nothing left of what an earlier stack of the name made through one of the plan's own hooks (`Interleaved.HookFree`), such as the thing of `Lifecycle.HookLeavesOrphan`; calling the hook again would take that thing over. Leftovers of other hooks, and objects, may be there.
- Renaming around leftovers (cfn/deploy.go:569-592): a plan arrives with its names chosen; `Lifecycle.NoLeftovers` is what a successful renaming gives.
- `Resolver.Resolver.Resolve`: resource references, Fn::Sub placeholders and live attributes inside a condition are not modelled; intrinsics other than the logical ones are one host function of their resolved arguments.
- `FlattenMeaning.FlattenPreserves`: scope is literal Ref and Fn::GetAtt arguments, no Fn::Sub in the parent, no Fn::If or Condition in a child, stacks referred to only through Outputs, and children the conditions of `FlattenLimits.RefKeptIff` and `FlattenLimits.FindKeptIff` hold of. Resource attributes other than Properties, DependsOn, Condition, Type and one policy are not modelled, and references from a stack's own Condition or DependsOn are not followed.
- `Cidr.FnCidr`: addresses are numbers; parsing and dotted rendering are not modelled.
- `BucketName.GeneratedBucketName`: takes the SHA-256 digest and what `k8sName` returns as inputs of the stated shape.
- Translators, the mapping table, managed policies, cross-engine type mapping, the command line, the console and the chaos harness: large tables or plumbing that would only add easy members.
