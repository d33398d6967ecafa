/** Any number of stacks at work on one cluster at once.  What each operation does next depends only on
    what it has itself seen and made; that this keeps every stack to its own things is proved here, for
    every interleaving, and is what the other modules rely on between any two calls. */
module Tenants {
  import opened Wrappers
  import opened Stack
  import opened History

  /** What one operation knows: the objects it has created and not yet gone back on, and the object it
      has just found to carry its stack's label. */
  datatype Local = Local(owned: set<Ident>, seen: Option<Ident>)

  datatype World = World(things: Things, locals: map<StackName, Local>, history: seq<Event>)

  /** One call of one operation. */
  datatype Call =
    | Look(id: Ident)
    /** Create if absent. */
    | Create(id: Ident, spec: string)
    /** Apply to an object found to be this stack's and created by this operation. */
    | Apply(id: Ident, spec: string)
    /** A nested stack, a custom resource or a REST API made, or torn down, through its hook. */
    | CallHook(id: Ident, spec: string)
    | DropHook(id: Ident)
    /** Rollback of an object this operation created, gone through once. */
    | Undo(id: Ident)
    /** Recovery's delete of an object just found to be this stack's. */
    | TakeDown(id: Ident)
    /** The process dies; another, knowing nothing, takes over. */
    | Crash

  datatype Step = Step(me: StackName, call: Call)

  /** What the code checks before the call: nothing but the operation's own knowledge. */
  predicate Permitted(w: World, step: Step) {
    step.me in w.locals &&
    var l := w.locals[step.me];
    match step.call
    case Look(id) => id.Named?
    case Create(id, _) => id.Named?
    case Apply(id, _) => id.Named? && l.seen == Some(id) && id in l.owned
    case CallHook(id, _) => Belongs(step.me, id)
    case DropHook(id) => Belongs(step.me, id)
    case Undo(id) => id in l.owned
    case TakeDown(id) => l.seen == Some(id)
    case Crash => true
  }

  /** The mutation the call amounts to, if any. */
  function ActionOf(w: World, step: Step): Option<Action> {
    var put := (id: Ident, spec: string) => Write(id, Lookup(w.things, id), Thing(Some(step.me), spec));
    match step.call
    case Look(_) => None
    case Create(id, spec) => if id in w.things then None else Some(put(id, spec))
    case Apply(id, spec) => Some(put(id, spec))
    case CallHook(id, spec) => Some(put(id, spec))
    case DropHook(id) => Some(Remove(id, Lookup(w.things, id)))
    case Undo(id) => Some(Remove(id, Lookup(w.things, id)))
    case TakeDown(id) => Some(Remove(id, Lookup(w.things, id)))
    case Crash => None
  }

  function Learned(w: World, step: Step): Local
    requires Permitted(w, step)
  {
    var l := w.locals[step.me];
    match step.call
    case Look(id) => l.(seen := if id in w.things && Mine(step.me, w.things[id]) then Some(id) else None)
    case Create(id, _) => Local(if id in w.things then l.owned else l.owned + {id}, None)
    case Undo(id) => Local(l.owned - {id}, None)
    case TakeDown(id) => Local(l.owned - {id}, None)
    case Crash => Local({}, None)
    case _ => l.(seen := None)
  }

  function Next(w: World, step: Step): World
    requires Permitted(w, step)
  {
    var a := ActionOf(w, step);
    World(if a.Some? then Perform(w.things, a.value) else w.things,
          w.locals[step.me := Learned(w, step)],
          if a.Some? then w.history + [Event(step.me, a.value)] else w.history)
  }

  ghost predicate Run(w: World, steps: seq<Step>, w': World)
    decreases |steps|
  {
    if steps == [] then w' == w
    else Permitted(w, steps[0]) && Run(Next(w, steps[0]), steps[1..], w')
  }

  /** Operations begin knowing nothing, on a cluster where what is named after a stack is that stack's. */
  ghost predicate Initial(w: World) {
    && w.history == []
    && (forall s :: s in w.locals ==> w.locals[s] == Local({}, None))
    && LogicalOwned(w.things)
  }

  ghost predicate LogicalOwned(things: Things) {
    forall id :: id in things && id.Logical? ==> Mine(id.owner, things[id])
  }

  /** What an operation knows to be its stack's is its stack's, now, whatever the others have done since. */
  ghost predicate Knows(things: Things, me: StackName, l: Local) {
    && (forall id :: id in l.owned ==> id.Named? && id in things && Mine(me, things[id]))
    && (l.seen.Some? ==> l.seen.value.Named? && l.seen.value in things && Mine(me, things[l.seen.value]))
  }

  ghost predicate Inv(start: Things, w: World) {
    && LogicalOwned(w.things)
    && (forall s :: s in w.locals ==> Knows(w.things, s, w.locals[s]))
    && Interleaving(start, w.history) && w.things == ThingsAfter(start, w.history)
  }

  /** Local knowledge is enough: the mutation is of what is absent or the stack's own. */
  lemma CallIsHonest(start: Things, w: World, step: Step)
    requires Inv(start, w) && Permitted(w, step) && ActionOf(w, step).Some?
    ensures Honest(w.things, Event(step.me, ActionOf(w, step).value))
  {
    assert Knows(w.things, step.me, w.locals[step.me]);
  }

  lemma StepKeeps(start: Things, w: World, step: Step)
    requires Inv(start, w) && Permitted(w, step)
    ensures Inv(start, Next(w, step))
  {
    var w', a := Next(w, step), ActionOf(w, step);
    assert Knows(w.things, step.me, w.locals[step.me]);
    if a.Some? {
      var e := Event(step.me, a.value);
      CallIsHonest(start, w, step);
      Extended(start, w.history, e);
      forall s | s in w.locals && s != step.me ensures Knows(w'.things, s, w.locals[s]) {
        assert Knows(w.things, s, w.locals[s]);
        GuaranteeGivesRely(s, w.things, e);
      }
    }
  }

  lemma {:induction false} RunKeeps(start: Things, w: World, steps: seq<Step>, w': World)
    requires Inv(start, w) && Run(w, steps, w')
    ensures Inv(start, w')
    decreases |steps|
  {
    if steps != [] {
      StepKeeps(start, w, steps[0]);
      RunKeeps(start, Next(w, steps[0]), steps[1..], w');
    }
  }

  /** Ownership under concurrency.  In every interleaving of any number of creates, rollbacks and
      recoveries, crashes included, every mutation is by the owner of what it touches, no thing's label
      ever changes while it exists, and, seen from any one stack, the others have left its things alone. */
  lemma OwnershipHolds(w0: World, steps: seq<Step>, w: World)
    requires Initial(w0) && Run(w0, steps, w)
    ensures Interleaving(w0.things, w.history) && w.things == ThingsAfter(w0.things, w.history)
    ensures OwnersRespected(w0.things, w.history)
    ensures forall me :: Tracks(me, w0.things, w.history) && KeepsToItsOwn(me, w.history)
  {
    RunKeeps(w0.things, w0, steps, w);
    HonestRespects(w0.things, w.history);
    forall me ensures Tracks(me, w0.things, w.history) && KeepsToItsOwn(me, w.history) {
      HonestTracks(me, w0.things, w.history);
    }
  }
}
