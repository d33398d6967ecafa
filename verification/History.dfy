/** Histories of a cluster shared by any number of stacks: one atomic mutation after another, and
    what ownership means over all of them. */
module History {
  import opened Wrappers
  import opened Stack

  datatype Action = Write(id: Ident, before: Option<Thing>, after: Thing) | Remove(id: Ident, before: Option<Thing>)

  /** One atomic mutation by one stack. */
  datatype Event = Event(actor: StackName, action: Action)

  function Lookup(things: Things, id: Ident): Option<Thing> {
    if id in things then Some(things[id]) else None
  }

  function Perform(things: Things, a: Action): Things {
    if a.Write? then things[a.id := a.after] else things - {a.id}
  }

  /** A stack touches only what is absent or its own, and what it writes is its own. */
  predicate OwnAction(me: StackName, a: Action) {
    && (a.before.Some? ==> Mine(me, a.before.value))
    && (a.Write? ==> Mine(me, a.after))
    && (a.id.Logical? ==> Belongs(me, a.id))
  }

  /** The event sees the cluster as it is, and its actor keeps to what is its own. */
  predicate Honest(things: Things, e: Event) {
    e.action.before == Lookup(things, e.action.id) && OwnAction(e.actor, e.action)
  }

  ghost function ThingsAfter(start: Things, h: seq<Event>): Things {
    if h == [] then start else Perform(ThingsAfter(start, h[..|h| - 1]), h[|h| - 1].action)
  }

  /** Every event is honest. */
  ghost predicate Interleaving(start: Things, h: seq<Event>) {
    h == [] || (Interleaving(start, h[..|h| - 1]) && Honest(ThingsAfter(start, h[..|h| - 1]), h[|h| - 1]))
  }

  /** Every event sees the cluster as it is, and other stacks' events are honest. */
  ghost predicate Tracks(me: StackName, start: Things, h: seq<Event>) {
    h == [] ||
    (var past, e := h[..|h| - 1], h[|h| - 1];
      && Tracks(me, start, past)
      && e.action.before == Lookup(ThingsAfter(start, past), e.action.id)
      && (e.actor != me ==> OwnAction(e.actor, e.action)))
  }

  /** Everything this stack did was its own to do. */
  ghost predicate KeepsToItsOwn(me: StackName, h: seq<Event>) {
    forall i :: 0 <= i < |h| && h[i].actor == me ==> OwnAction(me, h[i].action)
  }

  // ---------------------------------------------------------------- what a stack made, and what had completed by then

  /** One entry of an operation's own account: a thing made, or a resource that has become ready. */
  datatype Note = Made(id: Ident) | Ready(lid: LogicalId)

  /** The things `me` wrote, in order. */
  ghost function WritesBy(me: StackName, h: seq<Event>): seq<Ident> {
    if h == [] then []
    else
      var e := h[|h| - 1];
      WritesBy(me, h[..|h| - 1]) + if e.actor == me && e.action.Write? then [e.action.id] else []
  }

  ghost function MadeIn(journal: seq<Note>): seq<Ident> {
    if journal == [] then []
    else
      var n := journal[|journal| - 1];
      MadeIn(journal[..|journal| - 1]) + if n.Made? then [n.id] else []
  }

  /** The journal has every write of the history, in order. */
  ghost predicate Accounted(me: StackName, h: seq<Event>, journal: seq<Note>) {
    WritesBy(me, h) == MadeIn(journal)
  }

  lemma AccountGrows(me: StackName, h: seq<Event>, journal: seq<Note>, e: Event)
    requires Accounted(me, h, journal)
    ensures Accounted(me, h + [e], if e.actor == me && e.action.Write? then journal + [Made(e.action.id)] else journal)
  {
    assert (h + [e])[..|h + [e]| - 1] == h;
    var made := journal + [Made(e.action.id)];
    assert made[..|made| - 1] == journal;
  }

  lemma AccountReady(me: StackName, h: seq<Event>, journal: seq<Note>, l: LogicalId)
    requires Accounted(me, h, journal)
    ensures Accounted(me, h, journal + [Ready(l)])
  {
    var ready := journal + [Ready(l)];
    assert ready[..|ready| - 1] == journal;
  }

  /** Between entries `from` and `n` the resource became ready. */
  ghost predicate ReadyBy(journal: seq<Note>, from: nat, n: nat, l: LogicalId) {
    exists m :: from <= m < n && m < |journal| && journal[m] == Ready(l)
  }

  /** Since `j0` nothing was made, whatever became ready. */
  ghost predicate OnlyReady(j0: seq<Note>, j1: seq<Note>) {
    j0 <= j1 && forall n :: |j0| <= n < |j1| ==> j1[n].Ready?
  }

  lemma Extended(start: Things, h: seq<Event>, e: Event)
    ensures ThingsAfter(start, h + [e]) == Perform(ThingsAfter(start, h), e.action)
    ensures Interleaving(start, h + [e]) <==> Interleaving(start, h) && Honest(ThingsAfter(start, h), e)
    ensures forall me :: Tracks(me, start, h + [e]) <==>
              && Tracks(me, start, h) && e.action.before == Lookup(ThingsAfter(start, h), e.action.id)
              && (e.actor != me ==> OwnAction(e.actor, e.action))
    ensures forall me :: KeepsToItsOwn(me, h + [e]) <==> KeepsToItsOwn(me, h) && (e.actor == me ==> OwnAction(me, e.action))
  {
    var all := h + [e];
    assert all[..|all| - 1] == h && all[|all| - 1] == e;
    forall me
      ensures KeepsToItsOwn(me, all) <==> KeepsToItsOwn(me, h) && (e.actor == me ==> OwnAction(me, e.action))
    {
      if KeepsToItsOwn(me, all) {
        forall i | 0 <= i < |h| && h[i].actor == me ensures OwnAction(me, h[i].action) {
          assert all[i] == h[i];
        }
        assert all[|h|] == e;
      }
    }
  }

  /** With the others honest, a stack that keeps to its own completes an honest history. */
  lemma {:induction false} OwnMakesHonest(me: StackName, start: Things, h: seq<Event>)
    requires Tracks(me, start, h) && KeepsToItsOwn(me, h)
    ensures Interleaving(start, h)
    decreases |h|
  {
    if h != [] {
      var past, e := h[..|h| - 1], h[|h| - 1];
      assert h == past + [e];
      Extended(start, past, e);
      OwnMakesHonest(me, start, past);
    }
  }

  /** In an honest history each stack sees the others honest, and keeps to its own. */
  lemma {:induction false} HonestTracks(me: StackName, start: Things, h: seq<Event>)
    requires Interleaving(start, h)
    ensures Tracks(me, start, h) && KeepsToItsOwn(me, h)
    decreases |h|
  {
    if h != [] {
      var past, e := h[..|h| - 1], h[|h| - 1];
      assert h == past + [e];
      Extended(start, past, e);
      HonestTracks(me, start, past);
    }
  }

  /** What the contract of an operation comes to: as long as the others have been honest, the next thing
      `me` does is its own to do. */
  ghost predicate Promises(me: StackName, start: Things, h: seq<Event>) {
    forall n :: 0 <= n < |h| && h[n].actor == me && Tracks(me, start, h[..n]) && KeepsToItsOwn(me, h[..n]) ==> OwnAction(me, h[n].action)
  }

  /** Every event saw the cluster as it was. */
  ghost predicate Recorded(start: Things, h: seq<Event>) {
    forall n :: 0 <= n < |h| ==> h[n].action.before == Lookup(ThingsAfter(start, h[..n]), h[n].action.id)
  }

  /** Each stack promises under the assumption that the others keep theirs; together they keep them all. */
  lemma {:induction false} PromisesCompose(start: Things, h: seq<Event>)
    requires Recorded(start, h) && forall n :: 0 <= n < |h| ==> Promises(h[n].actor, start, h)
    ensures Interleaving(start, h) && OwnersRespected(start, h)
    decreases |h|
  {
    if h != [] {
      var past, e := h[..|h| - 1], h[|h| - 1];
      forall n | 0 <= n < |past|
        ensures past[..n] == h[..n] && past[n] == h[n] && Promises(past[n].actor, start, past)
      {
        assert forall k :: 0 <= k < |past| ==> past[..k] == h[..k];
        assert Promises(h[n].actor, start, h);
      }
      PromisesCompose(start, past);
      HonestTracks(e.actor, start, past);
      assert Promises(e.actor, start, h);
    }
    HonestRespects(start, h);
  }

  // ---------------------------------------------------------------- what ownership means

  /** Event number `i`: nothing but its actor's own thing is touched, and what is written carries its label. */
  ghost predicate ByOwner(start: Things, h: seq<Event>, i: nat)
    requires i < |h|
  {
    var things, e := ThingsAfter(start, h[..i]), h[i];
    && (e.action.id in things ==> Mine(e.actor, things[e.action.id]))
    && (e.action.Write? ==> Mine(e.actor, e.action.after))
  }

  /** From event `i` on to event `j` the thing exists. */
  ghost predicate Persists(start: Things, h: seq<Event>, id: Ident, i: nat, j: nat)
    requires i <= j <= |h|
  {
    forall k :: i <= k <= j ==> id in ThingsAfter(start, h[..k])
  }

  /** Every event is by the owner of what it touches, and a thing's label never changes while it exists. */
  ghost predicate OwnersRespected(start: Things, h: seq<Event>) {
    && (forall i :: 0 <= i < |h| ==> ByOwner(start, h, i))
    && (forall id, i, j :: 0 <= i <= j <= |h| && Persists(start, h, id, i, j) ==>
          ThingsAfter(start, h[..i])[id].owner == ThingsAfter(start, h[..j])[id].owner)
  }

  lemma {:induction false} HonestAt(start: Things, h: seq<Event>, i: nat)
    requires Interleaving(start, h) && i < |h|
    ensures Honest(ThingsAfter(start, h[..i]), h[i])
    ensures ThingsAfter(start, h[..i + 1]) == Perform(ThingsAfter(start, h[..i]), h[i].action)
    decreases |h|
  {
    assert h[..i + 1][..i] == h[..i];
    if i < |h| - 1 {
      var past := h[..|h| - 1];
      HonestAt(start, past, i);
      assert past[..i] == h[..i] && past[i] == h[i];
    }
  }

  lemma {:induction false} LabelKept(start: Things, h: seq<Event>, id: Ident, i: nat, j: nat)
    requires Interleaving(start, h) && i <= j <= |h| && Persists(start, h, id, i, j)
    ensures ThingsAfter(start, h[..i])[id].owner == ThingsAfter(start, h[..j])[id].owner
    decreases j - i
  {
    if i < j {
      HonestAt(start, h, i);
      LabelKept(start, h, id, i + 1, j);
    }
  }

  lemma HonestRespects(start: Things, h: seq<Event>)
    requires Interleaving(start, h)
    ensures OwnersRespected(start, h)
  {
    forall i | 0 <= i < |h| ensures ByOwner(start, h, i) {
      HonestAt(start, h, i);
    }
    forall id, i: nat, j: nat | i <= j <= |h| && Persists(start, h, id, i, j)
      ensures ThingsAfter(start, h[..i])[id].owner == ThingsAfter(start, h[..j])[id].owner
    {
      LabelKept(start, h, id, i, j);
    }
  }

  /** What one stack guarantees is what every other stack relies on. */
  lemma GuaranteeGivesRely(me: StackName, things: Things, e: Event)
    requires Honest(things, e) && e.actor != me
    ensures Rely(me, things, Perform(things, e.action))
  {
  }

  lemma RelyTransitive(me: StackName, a: Things, b: Things, c: Things)
    requires Rely(me, a, b) && Rely(me, b, c)
    ensures Rely(me, a, c)
  {
  }

  /** Any number of other stacks, interleaved in any way, leave a stack's own things, and the
      set of them, exactly as they were. */
  lemma {:induction false} OthersLeaveMineAlone(me: StackName, start: Things, h: seq<Event>)
    requires Interleaving(start, h) && forall i :: 0 <= i < |h| ==> h[i].actor != me
    ensures Rely(me, start, ThingsAfter(start, h))
    decreases |h|
  {
    if h != [] {
      var past := h[..|h| - 1];
      OthersLeaveMineAlone(me, start, past);
      GuaranteeGivesRely(me, ThingsAfter(start, past), h[|h| - 1]);
      RelyTransitive(me, start, ThingsAfter(start, past), ThingsAfter(start, h));
    }
  }
}
