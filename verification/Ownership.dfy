/** The guarded apply: what one operation checks before it writes. */
module Ownership {
  import opened Wrappers
  import opened Stack
  import opened History
  import opened Cluster

  /** refuseNotOurs: an existing object may be applied to only if it carries this stack's label
      and this operation owns it (a leftover of an earlier stack of the name is not its). */
  predicate Ours(me: StackName, owned: set<Ident>, id: Ident, owner: Option<StackName>) {
    owner == Some(me) && id in owned
  }

  /** applyOwned.  On success the object is this stack's with the given spec; an object this
      operation does not own is never written, whoever creates it meanwhile.  When nothing fails it
      succeeds exactly if the name is this operation's own or free, of leftovers and of others. */
  method ApplyOwned(c: Cluster, id: Ident, spec: string, owned: set<Ident>) returns (ok: bool, owned': set<Ident>)
    requires id.Logical? ==> Belongs(c.me, id)
    requires forall k :: k in owned ==> k in c.View() && Mine(c.me, c.View()[k])
    requires c.Guaranteed()
    modifies c
    ensures c.Guaranteed() && c.record == old(c.record) && c.removed == old(c.removed)
    ensures Later(old(c.Now()), c.Now(), c.quiet) && c.deletes == old(c.deletes) && c.cut == old(c.cut)
    ensures (ok ==> c.alive && c.refusals == old(c.refusals)) && (!old(c.alive) ==> c.View() == old(c.View()))
    ensures ok ==> c.View() == old(c.View())[id := Thing(Some(c.me), spec)] && owned' == owned + {id} && c.met == old(c.met)
    ensures ok ==> id in owned || id !in old(c.View())
    ensures !ok ==> owned' == owned
    ensures !ok ==> || c.View() == old(c.View())
                    || (!c.alive && c.View() == old(c.View())[id := Thing(Some(c.me), spec)] && (id in owned || id !in old(c.View())))
    ensures !ok && old(c.alive) && c.alive ==>
              c.refusals > old(c.refusals) || (id !in owned && (c.met > old(c.met) || id in old(c.View())))
    ensures c.alone && c.met > old(c.met) ==> id in c.View()
    ensures c.journal == old(c.journal) || c.journal == old(c.journal) + [Made(id)]
    ensures c.View() != old(c.View()) || ok ==> c.journal == old(c.journal) + [Made(id)]
  {
    hide Tracks, ThingsAfter, KeepsToItsOwn, Accounted, Later, Seen;
    ghost var h0 := c.Now();
    owned' := owned;
    // Requirements outside the stack, a taken physical name, an existing table: any may refuse.
    var free := c.Wait();
    if !free {
      return false, owned';
    }
    ghost var h1 := c.Now();
    var labels := c.GetLabels(id);
    ghost var h2 := c.Now();
    LaterOn(h0, h1, h2, c.quiet);
    match labels {
      case ReadFailed =>
        return false, owned';
      case Found(owner) =>
        if !Ours(c.me, owned, id, owner) {
          return false, owned';
        }
        ok := c.Apply(id, spec);
        LaterOn(h0, h2, c.Now(), c.quiet);
        assert ok ==> owned + {id} == owned;
      case NotFound =>
        var created := c.Create(id, spec);
        ghost var h3 := c.Now();
        LaterOn(h0, h2, h3, c.quiet);
        match created {
          case CreateFailed =>
            return false, owned';
          case Done =>
            return true, owned + {id};
          case Exists =>
            var again := c.GetLabels(id);
            LaterOn(h0, h3, c.Now(), c.quiet);
            // Created by someone else since the check.  What this operation owns it would have
            // found, so the second check never lets the apply through.
            assert again.Found? ==> !Ours(c.me, owned, id, again.owner);
            return false, owned';
        }
    }
  }
}
