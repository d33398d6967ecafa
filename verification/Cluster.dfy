/** The cluster as one stack operation sees it: things labelled with the stack that owns them,
    the operation's own persisted record, other stacks' operations running in between any two
    calls, calls that fail, and a process that may die inside any call.  What goes wrong is
    counted, and every mutation, by anyone, is in the history. */
module Cluster {
  import opened Wrappers
  import opened Stack
  import opened History

  /** What has gone wrong so far: deaths of the process, calls a living process was refused,
      deletes it was refused, deletes it died in; and how often it met a name another owns. */
  datatype Health = Health(alive: bool, crashes: nat, refusals: nat, deletes: nat, cut: nat, met: nat)

  /** Nothing is forgotten; on a quiet cluster nothing goes wrong. */
  ghost predicate Later(h0: Health, h1: Health, quiet: bool) {
    && (h1.alive ==> h0.alive) && (h0.alive && !h1.alive ==> h0.crashes < h1.crashes)
    && h0.crashes <= h1.crashes && h0.refusals <= h1.refusals && h0.deletes <= h1.deletes && h0.cut <= h1.cut && h0.met <= h1.met
    && (h1.crashes == h0.crashes ==> h1.alive == h0.alive && h1.cut == h0.cut)
    && (quiet ==> h1 == h0.(met := h1.met))
  }

  /** The process lived through it and nothing failed. */
  ghost predicate Flawless(h0: Health, h1: Health) {
    h0.alive && h1 == h0.(met := h1.met)
  }

  /** The process was there to delete, and every delete succeeded. */
  ghost predicate DeletesWork(h0: Health, h1: Health) {
    h0.alive && h1.deletes == h0.deletes && h1.cut == h0.cut
  }

  lemma NothingYet(h: Health, quiet: bool)
    ensures Later(h, h, quiet)
  {
  }

  /** What went wrong in either of two stretches went wrong over both. */
  lemma LaterOn(h0: Health, h1: Health, h2: Health, quiet: bool)
    requires Later(h0, h1, quiet) && Later(h1, h2, quiet)
    ensures Later(h0, h2, quiet)
    ensures Flawless(h0, h2) ==> Flawless(h0, h1) && Flawless(h1, h2)
    ensures DeletesWork(h0, h2) ==> DeletesWork(h0, h1) && (h1.alive ==> DeletesWork(h1, h2))
    ensures h0.refusals <= h1.refusals <= h2.refusals && h0.deletes <= h1.deletes <= h2.deletes && h0.met <= h1.met <= h2.met
    ensures h0.crashes <= h1.crashes <= h2.crashes && (h0.alive && !h2.alive ==> h0.crashes < h2.crashes)
    ensures (!h0.alive ==> !h1.alive) && (!h1.alive ==> !h2.alive)
  {
  }

  datatype Created = Done | Exists | CreateFailed

  datatype Labels = Found(owner: Option<StackName>) | NotFound | ReadFailed

  class Cluster {
    const me: StackName
    /** No other operation runs on this cluster. */
    const alone: bool
    /** Nothing fails but the hooks of `broken`, which always make their thing and then fail. */
    const quiet: bool
    const broken: set<Ident>
    var things: Things
    var record: Option<Record>
    /** Whether the operation's process still runs; once it has died nothing it calls has effect. */
    var alive: bool
    ghost const start: Things
    /** Every mutation by this stack and by the others. */
    ghost var history: seq<Event>
    /** What this stack made, and which of its resources became ready, in order. */
    ghost var journal: seq<Note>
    ghost var crashes: nat
    ghost var refusals: nat
    ghost var deletes: nat
    ghost var cut: nat
    ghost var met: nat
    /** What was reported deleted, in order. */
    ghost var removed: seq<Ident>

    constructor (me: StackName, alone: bool, quiet: bool, broken: set<Ident>, things: Things, record: Option<Record>)
      ensures this.me == me && this.alone == alone && this.quiet == quiet && this.broken == broken
      ensures this.things == things && this.record == record && start == things && history == [] && journal == [] && removed == []
      ensures Now() == Health(true, 0, 0, 0, 0, 0) && Guaranteed()
    {
      this.me, this.alone, this.quiet, this.broken, this.things, this.record := me, alone, quiet, broken, things, record;
      start := things;
      alive, history, journal, removed := true, [], [], [];
      crashes, refusals, deletes, cut, met := 0, 0, 0, 0, 0;
    }

    ghost function View(): Things
      reads this
    {
      Seen(me, alone, things)
    }

    ghost function Now(): Health
      reads this
    {
      Health(alive, crashes, refusals, deletes, cut, met)
    }

    /** The history accounts for the things as they are, and the journal for what this stack made. */
    ghost predicate Logged()
      reads this
    {
      Tracks(me, start, history) && things == ThingsAfter(start, history) && Accounted(me, history, journal)
    }

    /** And everything this stack did was its own to do. */
    ghost predicate Guaranteed()
      reads this
    {
      Logged() && KeepsToItsOwn(me, history)
    }

    lemma HistoryRespected()
      requires Guaranteed()
      ensures Interleaving(start, history) && OwnersRespected(start, history)
    {
      OwnMakesHonest(me, start, history);
      HonestRespects(start, history);
    }

    /** Other stacks act, any number of them any number of times. */
    method Others()
      requires Logged()
      modifies `things, `history
      ensures Logged() && old(history) <= history && (old(Guaranteed()) ==> Guaranteed())
      ensures View() == old(View()) && (alone ==> things == old(things))
    {
      if alone {
        return;
      }
      var n: int := *;
      for i := 0 to if n < 0 then 0 else n
        invariant Logged() && old(history) <= history && (old(Guaranteed()) ==> Guaranteed())
        invariant View() == old(View())
      {
        var e: Event := *;
        if e.actor != me && Honest(things, e) {
          Extended(start, history, e);
          AccountGrows(me, history, journal, e);
          GuaranteeGivesRely(me, things, e);
          SameSeen(me, things, Perform(things, e.action));
          things := Perform(things, e.action);
          history := history + [e];
        }
      }
    }

    /** Between the caller's last step and this call: others act, and the process may die. */
    method Interlude()
      requires Logged()
      modifies `things, `history, `alive, `crashes
      ensures Logged() && old(history) <= history && (old(Guaranteed()) ==> Guaranteed())
      ensures View() == old(View()) && (alone ==> things == old(things))
      ensures Later(old(Now()), Now(), quiet) && (old(alive) && !alive <==> crashes > old(crashes))
    {
      Others();
      var dies := *;
      if alive && dies && !quiet {
        Crash();
      }
    }

    method Crash()
      requires alive
      modifies `alive, `crashes
      ensures !alive && crashes == old(crashes) + 1
    {
      alive, crashes := false, crashes + 1;
    }

    /** This stack's own mutation. */
    ghost method Log(a: Action)
      requires Logged() && a.before == Lookup(things, a.id)
      modifies `history
      ensures history == old(history) + [Event(me, a)]
      ensures Tracks(me, start, history) && ThingsAfter(start, history) == Perform(things, a)
      ensures KeepsToItsOwn(me, history) <==> old(KeepsToItsOwn(me, history)) && OwnAction(me, a)
      ensures Accounted(me, history, if a.Write? then journal + [Made(a.id)] else journal)
    {
      Extended(start, history, Event(me, a));
      AccountGrows(me, history, journal, Event(me, a));
      history := history + [Event(me, a)];
    }

    /** What a call that changes nothing of this stack's leaves. */
    twostate predicate Unmoved()
      reads this
    {
      && Logged() && old(history) <= history && (old(Guaranteed()) ==> Guaranteed())
      && View() == old(View()) && (alone ==> things == old(things)) && removed == old(removed)
      && Later(old(Now()), Now(), quiet) && deletes == old(deletes) && cut == old(cut)
    }

    /** A call that failed on a living process was refused, and one that succeeded was not. */
    twostate predicate Answered(ok: bool)
      reads this
    {
      && (ok ==> alive && refusals == old(refusals))
      && (!ok && old(alive) && alive ==> old(refusals) < refusals)
    }

    method GetLabels(id: Ident) returns (r: Labels)
      requires Logged()
      modifies `things, `history, `alive, `crashes, `refusals, `met
      ensures Unmoved() && Answered(!r.ReadFailed?)
      ensures r.Found? ==> id in things && things[id].owner == r.owner
      ensures r.NotFound? ==> id !in things && id !in View()
      ensures r.Found? && r.owner == Some(me) ==> id in View()
      ensures r.Found? && id in View() ==> View()[id].owner == r.owner
      ensures r.Found? && alone ==> id in View()
      ensures met == old(met) + if r.Found? && r.owner != Some(me) then 1 else 0
    {
      Interlude();
      if !alive {
        return ReadFailed;
      }
      var fails := *;
      if fails && !quiet {
        refusals := refusals + 1;
        return ReadFailed;
      }
      r := if id in things then Found(things[id].owner) else NotFound;
      if r.Found? && r.owner != Some(me) {
        met := met + 1;
      }
    }

    /** This stack may touch the thing without leaving its own. */
    ghost predicate MayTouch(id: Ident)
      reads this
    {
      if id in View() then Mine(me, View()[id]) else alone || Belongs(me, id)
    }

    /** Overwrites whatever is there. */
    method Put(id: Ident, spec: string)
      requires Logged() && (id.Logical? ==> Belongs(me, id))
      modifies `things, `history, `journal
      ensures Logged() && old(history) <= history && journal == old(journal) + [Made(id)]
      ensures things == old(things)[id := Thing(Some(me), spec)] && View() == old(View())[id := Thing(Some(me), spec)]
      ensures old(Guaranteed() && (MayTouch(id) || id !in things)) ==> Guaranteed()
    {
      hide Seen, Tracks, KeepsToItsOwn, ThingsAfter, Accounted, OwnAction;
      ghost var a := Write(id, Lookup(things, id), Thing(Some(me), spec));
      SeenPut(me, alone, things, id, a.after);
      OwnTouch(me, alone, things, a);
      Log(a);
      things := things[id := Thing(Some(me), spec)];
      journal := journal + [Made(id)];
    }

    method Drop(id: Ident)
      requires Logged() && (id.Logical? ==> Belongs(me, id))
      modifies `things, `history
      ensures Logged() && old(history) <= history
      ensures things == old(things) - {id} && View() == old(View()) - {id}
      ensures old(Guaranteed() && MayTouch(id)) ==> Guaranteed()
    {
      hide Seen, Tracks, KeepsToItsOwn, ThingsAfter, Accounted, OwnAction;
      ghost var a := Remove(id, Lookup(things, id));
      SeenPut(me, alone, things, id, Thing(Some(me), ""));
      OwnTouch(me, alone, things, a);
      Log(a);
      things := things - {id};
    }

    /** Create if absent, in one step. */
    method Create(id: Ident, spec: string) returns (r: Created)
      requires Logged() && (id.Logical? ==> Belongs(me, id))
      modifies `things, `history, `journal, `alive, `crashes, `refusals, `met
      ensures Logged() && old(history) <= history && (old(Guaranteed()) ==> Guaranteed()) && removed == old(removed)
      ensures journal == old(journal) || journal == old(journal) + [Made(id)]
      ensures View() != old(View()) || r.Done? ==> journal == old(journal) + [Made(id)]
      ensures Later(old(Now()), Now(), quiet) && deletes == old(deletes) && cut == old(cut) && Answered(!r.CreateFailed?)
      ensures !old(alive) ==> View() == old(View())
      ensures r.Done? ==> id !in old(View()) && View() == old(View())[id := Thing(Some(me), spec)]
      ensures r.Exists? ==> View() == old(View()) && id in things && (alone || Mine(me, things[id]) ==> id in View())
      ensures r.CreateFailed? ==>
                View() == old(View()) || (!alive && id !in old(View()) && View() == old(View())[id := Thing(Some(me), spec)])
      ensures met == old(met) + if r.Exists? && !Mine(me, things[id]) then 1 else 0
    {
      hide Tracks, KeepsToItsOwn, ThingsAfter, Accounted;
      Interlude();
      if !alive {
        return CreateFailed;
      }
      var fails := *;
      if fails && !quiet {
        refusals := refusals + 1;
        return CreateFailed;
      }
      if id in things {
        if things[id].owner != Some(me) {
          met := met + 1;
        }
        return Exists;
      }
      Put(id, spec);
      r := Done;
      var dies := *;
      if dies && !quiet {
        Crash();
        r := CreateFailed;
      }
    }

    method Apply(id: Ident, spec: string) returns (ok: bool)
      requires Logged() && (id.Logical? ==> Belongs(me, id))
      modifies `things, `history, `journal, `alive, `crashes, `refusals
      ensures Logged() && old(history) <= history && removed == old(removed)
      ensures journal == old(journal) || journal == old(journal) + [Made(id)]
      ensures View() != old(View()) || ok ==> journal == old(journal) + [Made(id)]
      ensures Later(old(Now()), Now(), quiet) && deletes == old(deletes) && cut == old(cut) && Answered(ok)
      ensures !old(alive) ==> View() == old(View())
      ensures ok ==> View() == old(View())[id := Thing(Some(me), spec)]
      ensures !ok ==> View() == old(View()) || (!alive && View() == old(View())[id := Thing(Some(me), spec)])
      ensures old(Guaranteed() && MayTouch(id)) ==> Guaranteed()
    {
      hide Seen, Tracks, KeepsToItsOwn, ThingsAfter, Accounted;
      Interlude();
      if !alive {
        return false;
      }
      var fails := *;
      if fails && !quiet {
        refusals := refusals + 1;
        return false;
      }
      Put(id, spec);
      ok := true;
      var dies := *;
      if dies && !quiet {
        Crash();
        ok := false;
      }
    }

    /** Have a hook make its thing: a nested stack, a custom resource's Function, a REST API.  One
        that fails may have made it all the same; one that succeeds has made it and it is ready. */
    method CallHook(id: Ident, spec: string) returns (ok: bool)
      requires Logged() && Belongs(me, id)
      modifies `things, `history, `journal, `alive, `crashes, `refusals
      ensures Logged() && old(history) <= history && removed == old(removed)
      ensures journal == old(journal) || journal == old(journal) + [Made(id)] || journal == old(journal) + [Made(id), Ready(id.lid)]
      ensures View() != old(View()) ==> |journal| > |old(journal)|
      ensures ok ==> journal == old(journal) + [Made(id), Ready(id.lid)]
      ensures Later(old(Now()), Now(), quiet && id !in broken) && deletes == old(deletes) && cut == old(cut) && Answered(ok)
      ensures !old(alive) ==> View() == old(View())
      ensures View() == old(View()) || View() == old(View())[id := Thing(Some(me), spec)]
      ensures ok ==> View() == old(View())[id := Thing(Some(me), spec)]
      ensures quiet && old(alive) && id in broken ==> !ok && alive && View() == old(View())[id := Thing(Some(me), spec)]
      ensures old(Guaranteed() && MayTouch(id)) ==> Guaranteed()
    {
      hide Seen, Tracks, KeepsToItsOwn, ThingsAfter, Accounted;
      Interlude();
      if !alive {
        return false;
      }
      var fails, leaves := *, *;
      if quiet {
        fails := id in broken;
      }
      if fails {
        if quiet || leaves {
          Put(id, spec);
        }
        refusals := refusals + 1;
        return false;
      }
      Put(id, spec);
      ok := true;
      var dies := *;
      if dies && !quiet {
        Crash();
        ok := false;
        return;
      }
      NoteReady(id.lid);
    }

    /** Delete, absent or not; it may report a failure after the thing is gone (a wait for its
        disappearance, its data). */
    method Delete(id: Ident) returns (ok: bool)
      requires Logged() && (id.Logical? ==> Belongs(me, id))
      modifies `things, `history, `alive, `crashes, `deletes, `cut, `removed
      ensures Logged() && old(history) <= history
      ensures Later(old(Now()), Now(), quiet) && met == old(met) && refusals == old(refusals)
      ensures (ok ==> alive) && (DeletesWork(old(Now()), Now()) ==> ok)
      ensures !ok && old(alive) && alive ==> old(deletes) < deletes
      ensures !old(alive) ==> View() == old(View())
      ensures removed == if ok then old(removed) + [id] else old(removed)
      ensures ok ==> View() == old(View()) - {id}
      ensures !ok ==> View() == old(View()) || View() == old(View()) - {id}
      ensures alone && ok ==> id !in things
      ensures old(Guaranteed() && MayTouch(id)) ==> Guaranteed()
    {
      hide Seen, Tracks, KeepsToItsOwn, ThingsAfter, Accounted;
      Interlude();
      if !alive {
        if old(alive) {
          cut := cut + 1;
        }
        return false;
      }
      var fails := *;
      if fails && !quiet {
        deletes := deletes + 1;
        return false;
      }
      Drop(id);
      var dies, late := *, *;
      if dies && !quiet {
        Crash();
        cut := cut + 1;
        return false;
      }
      if late && !quiet {
        deletes := deletes + 1;
        return false;
      }
      removed := removed + [id];
      ok := true;
    }

    /** The record's own object is deleted; a failure is not looked at. */
    method DeleteRecord()
      requires Logged()
      modifies `things, `history, `alive, `crashes, `refusals, `record
      ensures Unmoved() && met == old(met) && (!old(alive) ==> record == old(record))
      ensures record == old(record) || record == None
      ensures Flawless(old(Now()), Now()) ==> record == None
    {
      Interlude();
      if alive {
        var fails := *;
        if fails && !quiet {
          refusals := refusals + 1;
        } else {
          record := None;
        }
      }
    }

    /** Another process takes over, some time later. */
    method Restart()
      requires Logged()
      modifies `things, `history, `alive
      ensures Logged() && old(history) <= history && (old(Guaranteed()) ==> Guaranteed())
      ensures View() == old(View()) && (alone ==> things == old(things)) && Now() == old(Now()).(alive := true)
    {
      Others();
      alive := true;
    }

    method WriteRecord(rec: Record) returns (ok: bool)
      requires Logged()
      modifies `things, `history, `alive, `crashes, `refusals, `record
      ensures Unmoved() && Answered(ok) && met == old(met) && (!old(alive) ==> record == old(record))
      ensures ok ==> record == Some(rec)
      ensures !ok ==> record == old(record) || (!alive && record == Some(rec))
    {
      Interlude();
      if !alive {
        return false;
      }
      var fails := *;
      if fails && !quiet {
        refusals := refusals + 1;
        return false;
      }
      record := Some(rec);
      ok := true;
      var dies := *;
      if dies && !quiet {
        Crash();
        ok := false;
      }
    }

    ghost method NoteReady(l: LogicalId)
      requires Logged()
      modifies `journal
      ensures journal == old(journal) + [Ready(l)] && Logged() && (old(Guaranteed()) ==> Guaranteed())
    {
      AccountReady(me, history, journal, l);
      journal := journal + [Ready(l)];
    }

    /** The wait of a created resource (readiness, a running VM, signals): it passes, and the resource is
        ready, or it fails. */
    method Complete(l: LogicalId) returns (ok: bool)
      requires Logged()
      modifies `things, `history, `journal, `alive, `crashes, `refusals
      ensures Unmoved() && Answered(ok) && met == old(met)
      ensures journal == old(journal) + if ok then [Ready(l)] else []
    {
      ok := Wait();
      if ok {
        NoteReady(l);
      }
    }

    /** The persisted record, if it can be read. */
    method ReadRecord() returns (ok: bool, rec: Option<Record>)
      requires Logged()
      modifies `things, `history, `alive, `crashes, `refusals
      ensures Unmoved() && Answered(ok) && met == old(met)
      ensures rec == if ok then record else None
    {
      ok := Wait();
      rec := if ok then record else None;
    }

    /** A check: passes or fails, changes nothing. */
    method Wait() returns (ok: bool)
      requires Logged()
      modifies `things, `history, `alive, `crashes, `refusals
      ensures Unmoved() && Answered(ok) && met == old(met)
    {
      Interlude();
      var fails := *;
      ok := alive && !(fails && !quiet);
      if alive && !ok {
        refusals := refusals + 1;
      }
    }
  }

  lemma SameSeen(me: StackName, before: Things, after: Things)
    requires Rely(me, before, after)
    ensures Seen(me, false, before) == Seen(me, false, after)
  {
  }

  /** A mutation of what it may touch, or of what is absent, is this stack's own to do. */
  lemma OwnTouch(me: StackName, alone: bool, things: Things, a: Action)
    requires a.before == Lookup(things, a.id) && (a.id.Logical? ==> Belongs(me, a.id)) && (a.Write? ==> Mine(me, a.after))
    ensures a.id !in things ==> OwnAction(me, a)
    ensures (if a.id in Seen(me, alone, things) then Mine(me, Seen(me, alone, things)[a.id]) else alone || Belongs(me, a.id)) ==> OwnAction(me, a)
  {
  }

  lemma SeenPut(me: StackName, alone: bool, things: Things, id: Ident, t: Thing)
    requires Mine(me, t)
    ensures Seen(me, alone, things[id := t]) == Seen(me, alone, things)[id := t]
    ensures Seen(me, alone, things - {id}) == Seen(me, alone, things) - {id}
    ensures id in Seen(me, alone, things) ==> id in things && Seen(me, alone, things)[id] == things[id]
    ensures id in things && id !in Seen(me, alone, things) ==> !alone && !Belongs(me, id)
  {
  }
}
