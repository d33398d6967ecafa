/** How a sink consumes its stream: a fetch applied as one sorted transaction, retried, and
    otherwise message by message with negative acknowledgements and a dead-letter limit. */
module Batch {
  import opened Hlc
  import opened Mesh
  import opened MeshInvariant
  import opened MeshTheorems
  import Locks
  import Text

  /** A decoded stream message: an empty body, a change, or one that cannot be parsed or
      whose table is not there yet. */
  datatype Event = Tombstone | Change(write: Write) | Unparsable(retryable: bool)

  /** A message with the number of times it has been delivered. */
  datatype Delivery = Delivery(event: Event, delivered: nat)

  datatype Disposition = Ack | Nak | DeadLetter

  /** What the database answers: done, a deadlock or serialization failure, or a data error. */
  datatype Answer = Applied | Transient | Rejected

  datatype Parsed = Entry(write: Write) | Skip | Bad(retryable: bool)

  /** parseMsg: tombstones and the target's own echoes are dropped. */
  function Parse(e: Event, site: Site): Parsed {
    match e
    case Tombstone => Skip
    case Unparsable(r) => Bad(r)
    case Change(w) => if w.row.origin == site then Skip else Entry(w)
  }

  function Entries(msgs: seq<Delivery>, site: Site): seq<Write> {
    if msgs == [] then []
    else
      var p := Parse(msgs[0].event, site);
      (if p.Entry? then [p.write] else []) + Entries(msgs[1..], site)
  }

  // ---------------------------------------------------------------- the guarded upsert as a maximum

  function Absorb(table: map<Key, Row>, ws: seq<Write>): map<Key, Row>
    decreases |ws|
  {
    if ws == [] then table else Absorb(Upsert(table, ws[0]), ws[1..])
  }

  ghost function Candidates(table: map<Key, Row>, ws: seq<Write>): set<Write> {
    (set k | k in table :: Write(k, table[k])) + (set w | w in ws)
  }

  /** A (version, origin) stamp names one row per key. */
  ghost predicate StampsDistinct(cs: set<Write>) {
    forall a, b :: a in cs && b in cs && a.key == b.key && a.row.version == b.row.version && a.row.origin == b.row.origin ==> a == b
  }

  /** `r` maps every key of the candidates to the greatest of its rows. */
  ghost predicate IsMaximum(cs: set<Write>, r: map<Key, Row>) {
    && (forall k :: k in r ==> Write(k, r[k]) in cs)
    && (forall w :: w in cs ==> w.key in r && AtLeast(r[w.key], w.row))
  }

  lemma MaximumUnique(cs: set<Write>, r: map<Key, Row>, r': map<Key, Row>)
    requires StampsDistinct(cs) && IsMaximum(cs, r) && IsMaximum(cs, r')
    ensures r == r'
  {
    forall k | k in r
      ensures k in r' && r[k] == r'[k]
    {
      assert Write(k, r[k]) in cs;
      assert Write(k, r'[k]) in cs;
    }
    forall k | k in r'
      ensures k in r
    {
      assert Write(k, r'[k]) in cs;
    }
  }

  lemma {:induction false} AbsorbIsMaximum(table: map<Key, Row>, ws: seq<Write>)
    ensures IsMaximum(Candidates(table, ws), Absorb(table, ws))
    decreases |ws|
  {
    var cs := Candidates(table, ws);
    if ws == [] {
      assert forall k :: k in table ==> Write(k, table[k]) in cs;
    } else {
      var t := Upsert(table, ws[0]);
      AbsorbIsMaximum(t, ws[1..]);
      var r, ds := Absorb(t, ws[1..]), Candidates(t, ws[1..]);
      forall k | k in r
        ensures Write(k, r[k]) in cs
      {
        assert Write(k, r[k]) in ds;
        if Write(k, r[k]) !in ws[1..] && k in table && t[k] == table[k] {
          assert Write(k, table[k]) in cs;
        }
      }
      forall w | w in cs
        ensures w.key in r && AtLeast(r[w.key], w.row)
      {
        var kept := Write(w.key, if w.key in t then t[w.key] else w.row);
        if w in ws[1..] {
          assert w in ds;
        } else {
          assert w.key in t && AtLeast(t[w.key], w.row);
          assert kept in ds;
        }
      }
    }
  }

  lemma {:induction false} AbsorbConcat(table: map<Key, Row>, a: seq<Write>, b: seq<Write>)
    ensures Absorb(Absorb(table, a), b) == Absorb(table, a + b)
    decreases |a|
  {
    if a == [] {
      assert a + b == b;
    } else {
      assert (a + b)[0] == a[0] && (a + b)[1..] == a[1..] + b;
      AbsorbConcat(Upsert(table, a[0]), a[1..], b);
    }
  }

  /** Any permutation, any duplication and any regrouping of the same writes gives the same
      table: only the set of applied writes matters, and the result is their maximum. */
  lemma OrderIrrelevant(table: map<Key, Row>, a: seq<Write>, b: seq<Write>)
    requires StampsDistinct(Candidates(table, a))
    requires forall w :: w in a <==> w in b
    ensures Absorb(table, a) == Absorb(table, b)
  {
    assert Candidates(table, a) == Candidates(table, b);
    AbsorbIsMaximum(table, a);
    AbsorbIsMaximum(table, b);
    MaximumUnique(Candidates(table, a), Absorb(table, a), Absorb(table, b));
  }

  /** Redelivering what was already applied, in any later batch, changes nothing. */
  lemma RedeliveryIsIdle(table: map<Key, Row>, a: seq<Write>, again: seq<Write>)
    requires StampsDistinct(Candidates(table, a))
    requires forall w :: w in again ==> w in a
    ensures Absorb(Absorb(table, a), again) == Absorb(table, a)
  {
    AbsorbConcat(table, a, again);
    OrderIrrelevant(table, a, a + again);
  }

  // ---------------------------------------------------------------- sorting

  predicate KeyAtMost(a: Write, b: Write) {
    Text.AtMost(Locks.SortKey(a.key), Locks.SortKey(b.key))
  }

  ghost predicate Sorted(ws: seq<Write>) {
    forall i, j :: 0 <= i < j < |ws| ==> KeyAtMost(ws[i], ws[j])
  }

  lemma KeyAtMostTransitive(a: Write, b: Write, c: Write)
    requires KeyAtMost(a, b) && KeyAtMost(b, c)
    ensures KeyAtMost(a, c)
  {
    var x, y, z := Locks.SortKey(a.key), Locks.SortKey(b.key), Locks.SortKey(c.key);
    if Text.Less(z, x) {
      Text.Total(x, y);
      Text.Total(y, z);
      if x != y {
        Text.Transitive(z, x, y);
      }
    }
  }

  /** Stands for sort.Slice: callers rely on nothing but order and contents, so entries with
      equal keys may come out in any order. */
  method SortEntries(ws: seq<Write>) returns (out: seq<Write>)
    ensures multiset(out) == multiset(ws)
    ensures Sorted(out)
  {
    out := [];
    for n := 0 to |ws|
      invariant multiset(out) == multiset(ws[..n])
      invariant Sorted(out)
    {
      out := InsertEntry(out, ws[n]);
      assert ws[..n + 1] == ws[..n] + [ws[n]];
    }
    assert ws[..|ws|] == ws;
  }

  lemma InsertedSorted(ws: seq<Write>, i: nat, w: Write)
    requires Sorted(ws) && i <= |ws|
    requires forall n :: 0 <= n < i ==> KeyAtMost(ws[n], w)
    requires i < |ws| ==> KeyAtMost(w, ws[i])
    ensures Sorted(ws[..i] + [w] + ws[i..])
  {
    hide KeyAtMost;
    forall n | i <= n < |ws|
      ensures KeyAtMost(w, ws[n])
    {
      if i < n {
        KeyAtMostTransitive(w, ws[i], ws[n]);
      }
    }
    var out := ws[..i] + [w] + ws[i..];
    assert forall k :: 0 <= k < |out| ==> out[k] == if k < i then ws[k] else if k == i then w else ws[k - 1];
  }

  method InsertEntry(ws: seq<Write>, w: Write) returns (out: seq<Write>)
    requires Sorted(ws)
    ensures multiset(out) == multiset(ws) + multiset{w}
    ensures Sorted(out)
  {
    var i := 0;
    while i < |ws| && KeyAtMost(ws[i], w)
      invariant 0 <= i <= |ws|
      invariant forall n :: 0 <= n < i ==> KeyAtMost(ws[n], w)
    {
      i := i + 1;
    }
    if i < |ws| {
      Text.Total(Locks.SortKey(ws[i].key), Locks.SortKey(w.key));
    }
    InsertedSorted(ws, i, w);
    out := ws[..i] + [w] + ws[i..];
    assert ws == ws[..i] + ws[i..];
  }

  /** The order in which a batch takes its row locks is the order deadlock freedom needs. */
  lemma SortedLocksOrdered(ws: seq<Write>)
    requires Sorted(ws) && forall w :: w in ws ==> Locks.CleanIdentifiers(w.key)
    ensures Locks.Ordered(seq(|ws|, i requires 0 <= i < |ws| => ws[i].key))
  {
    var plan := seq(|ws|, i requires 0 <= i < |ws| => ws[i].key);
    forall i, j | 0 <= i < j < |plan|
      ensures Text.AtMost(Locks.SortKey(plan[i]), Locks.SortKey(plan[j]))
    {
      assert KeyAtMost(ws[i], ws[j]);
    }
  }

  lemma {:induction false} EntriesOf(msgs: seq<Delivery>, site: Site, w: Write)
    ensures w in Entries(msgs, site) <==> exists i :: 0 <= i < |msgs| && Parse(msgs[i].event, site) == Entry(w)
    decreases |msgs|
  {
    if msgs != [] {
      EntriesOf(msgs[1..], site, w);
      assert forall i :: 0 <= i < |msgs| - 1 ==> msgs[1..][i] == msgs[i + 1];
      if i :| 0 <= i < |msgs| && Parse(msgs[i].event, site) == Entry(w) {
        if i > 0 {
          assert Parse(msgs[1..][i - 1].event, site) == Entry(w);
        }
      }
    }
  }

  // ---------------------------------------------------------------- what a round promises

  /** Every acknowledged change of another site is covered by the table. */
  ghost predicate ForeignCovered(msgs: seq<Delivery>, acts: seq<Disposition>, site: Site, table: map<Key, Row>)
    requires |acts| == |msgs|
  {
    forall i, w :: 0 <= i < |msgs| && acts[i].Ack? && msgs[i].event == Change(w) && w.row.origin != site ==>
      w.key in table && AtLeast(table[w.key], w.row)
  }

  /** No row is lost or set back, and one that changed is that of an acknowledged change of another site:
      a site's own echoes and tombstones leave the table alone. */
  ghost predicate OnlyForeignWritten(msgs: seq<Delivery>, acts: seq<Disposition>, site: Site, before: map<Key, Row>, after: map<Key, Row>)
    requires |acts| == |msgs|
  {
    && (forall k :: k in before ==> k in after && AtLeast(after[k], before[k]))
    && (forall k :: k in after && !(k in before && before[k] == after[k]) ==>
          after[k].origin != site && exists i :: 0 <= i < |msgs| && acts[i].Ack? && msgs[i].event == Change(Write(k, after[k])))
  }

  ghost predicate Readable(msgs: seq<Delivery>) {
    forall i :: 0 <= i < |msgs| ==> !msgs[i].event.Unparsable?
  }

  function EachAcked(msgs: seq<Delivery>): (acts: seq<Disposition>)
    ensures |acts| == |msgs| && forall i :: 0 <= i < |acts| ==> acts[i].Ack?
  {
    seq(|msgs|, _ => Ack)
  }

  /** Joining the acknowledged changes, and nothing else, is all of that. */
  lemma JoinedIsForeign(msgs: seq<Delivery>, acts: seq<Disposition>, site: Site, before: map<Key, Row>, applied: seq<Write>)
    requires |acts| == |msgs| && forall w :: w in applied <==> AckedIn(msgs, acts, site, w)
    ensures ForeignCovered(msgs, acts, site, Absorb(before, applied))
    ensures OnlyForeignWritten(msgs, acts, site, before, Absorb(before, applied))
  {
    var after, cs := Absorb(before, applied), Candidates(before, applied);
    AbsorbIsMaximum(before, applied);
    forall i, w | 0 <= i < |msgs| && acts[i].Ack? && msgs[i].event == Change(w) && w.row.origin != site
      ensures w.key in after && AtLeast(after[w.key], w.row)
    {
      assert Parse(msgs[i].event, site) == Entry(w);
      assert w in applied && w in cs;
    }
    forall k | k in before ensures k in after && AtLeast(after[k], before[k]) {
      assert Write(k, before[k]) in cs;
    }
    forall k | k in after && !(k in before && before[k] == after[k])
      ensures after[k].origin != site && exists i :: 0 <= i < |msgs| && acts[i].Ack? && msgs[i].event == Change(Write(k, after[k]))
    {
      assert Write(k, after[k]) in cs && Write(k, after[k]) in applied;
      var i :| 0 <= i < |msgs| && acts[i].Ack? && Parse(msgs[i].event, site) == Entry(Write(k, after[k]));
      assert msgs[i].event == Change(Write(k, after[k]));
    }
  }

  lemma BatchIsForeign(msgs: seq<Delivery>, site: Site, before: map<Key, Row>, order: seq<Write>)
    requires multiset(order) == multiset(Entries(msgs, site))
    ensures forall w :: w in order <==> AckedIn(msgs, EachAcked(msgs), site, w)
    ensures ForeignCovered(msgs, EachAcked(msgs), site, Absorb(before, order))
    ensures OnlyForeignWritten(msgs, EachAcked(msgs), site, before, Absorb(before, order))
  {
    var acts := EachAcked(msgs);
    SameMembers(order, Entries(msgs, site));
    forall w ensures w in order <==> AckedIn(msgs, acts, site, w) {
      EntriesOf(msgs, site, w);
    }
    JoinedIsForeign(msgs, acts, site, before, order);
  }

  // ---------------------------------------------------------------- the sink

  class Sink {
    const site: Site
    const maxDeliver: nat
    const transientMax: nat
    var table: map<Key, Row>
    /** Statements and commits the database has failed so far. */
    ghost var failures: nat

    constructor (site: Site, maxDeliver: nat, transientMax: nat)
      ensures this.site == site && this.maxDeliver == maxDeliver && this.transientMax == transientMax
      ensures table == map[] && failures == 0
    {
      this.site, this.maxDeliver, this.transientMax := site, maxDeliver, transientMax;
      table, failures := map[], 0;
    }

    /** No delivery at or past this count is ever handed back to the stream. */
    function Limit(): nat {
      if maxDeliver < transientMax then transientMax else maxDeliver
    }

    /** What the database answers to a statement or a commit. */
    method Answers() returns (answer: Answer)
      modifies `failures
      ensures failures == old(failures) + if answer.Applied? then 0 else 1
    {
      if * {
        return Applied;
      }
      failures := failures + 1;
      if * {
        return Transient;
      }
      answer := Rejected;
    }

    /** One transaction over a whole fetch: all of it or nothing.  The database may fail any
        statement, or the commit. */
    method TryBatch(msgs: seq<Delivery>) returns (answer: Answer)
      modifies this
      ensures answer.Transient? ==> failures > old(failures)
      ensures answer.Applied? ==> Readable(msgs)
      ensures answer.Applied? ==>
                exists order :: multiset(order) == multiset(Entries(msgs, site)) && Sorted(order) && table == Absorb(old(table), order)
      ensures answer.Applied? ==>
                ForeignCovered(msgs, EachAcked(msgs), site, table) && OnlyForeignWritten(msgs, EachAcked(msgs), site, old(table), table)
      ensures !answer.Applied? ==> table == old(table)
      ensures old(failures) <= failures && (Readable(msgs) && failures == old(failures) ==> answer.Applied?)
    {
      var parsed: seq<Write> := [];
      for n := 0 to |msgs|
        invariant table == old(table) && failures == old(failures)
        invariant parsed + Entries(msgs[n..], site) == Entries(msgs, site)
        invariant forall i :: 0 <= i < n ==> !msgs[i].event.Unparsable?
      {
        var p := Parse(msgs[n].event, site);
        assert msgs[n..][0] == msgs[n] && msgs[n..][1..] == msgs[n + 1..];
        if p.Bad? {
          return Rejected;
        }
        if p.Entry? {
          assert Entries(msgs[n..], site) == [p.write] + Entries(msgs[n + 1..], site);
          parsed := parsed + [p.write];
        }
      }
      assert msgs[|msgs|..] == [];
      var entries := SortEntries(parsed);
      var tx := table;
      for n := 0 to |entries|
        invariant table == old(table) && failures == old(failures)
        invariant Absorb(tx, entries[n..]) == Absorb(old(table), entries)
      {
        var answer := Answers();
        if !answer.Applied? {
          return answer;
        }
        assert entries[n..][0] == entries[n] && entries[n..][1..] == entries[n + 1..];
        tx := Upsert(tx, entries[n]);
      }
      answer := Answers();
      if answer.Applied? {
        table := tx;
        BatchIsForeign(msgs, site, old(table), entries);
      }
    }

    /** Up to four attempts while the database answers with a deadlock. */
    method ApplyBatch(msgs: seq<Delivery>) returns (answer: Answer)
      modifies this
      ensures answer.Transient? ==> failures >= old(failures) + 4
      ensures answer.Applied? ==> Readable(msgs)
      ensures answer.Applied? ==>
                exists order :: multiset(order) == multiset(Entries(msgs, site)) && Sorted(order) && table == Absorb(old(table), order)
      ensures answer.Applied? ==>
                ForeignCovered(msgs, EachAcked(msgs), site, table) && OnlyForeignWritten(msgs, EachAcked(msgs), site, old(table), table)
      ensures !answer.Applied? ==> table == old(table)
      ensures old(failures) <= failures && (Readable(msgs) && failures == old(failures) ==> answer.Applied?)
    {
      answer := Transient;
      var attempt := 0;
      while attempt < 4
        invariant attempt <= 4 && answer.Transient? && table == old(table) && failures >= old(failures) + attempt
        decreases 4 - attempt
      {
        answer := TryBatch(msgs);
        if !answer.Transient? {
          return;
        }
        attempt := attempt + 1;
      }
    }

    /** One message on its own. */
    method ApplyOne(e: Event) returns (answer: Answer)
      modifies this
      ensures answer.Applied? ==> match Parse(e, site)
                                  case Entry(w) => table == Upsert(old(table), w)
                                  case Skip => table == old(table)
                                  case Bad(_) => false
      ensures !answer.Applied? ==> table == old(table)
      ensures e.Unparsable? ==> answer == if e.retryable then Transient else Rejected
      ensures old(failures) <= failures && (!answer.Applied? && !e.Unparsable? ==> failures > old(failures))
    {
      match Parse(e, site)
      case Bad(retryable) => answer := if retryable then Transient else Rejected;
      case Skip => answer := Applied;
      case Entry(w) =>
        answer := Answers();
        if answer.Applied? {
          table := Upsert(table, w);
        }
    }

    /** The per-message path: negative acknowledgement below the limit of the error's kind,
        dead-letter at or past it. */
    method HandleEach(msgs: seq<Delivery>) returns (acts: seq<Disposition>, ghost applied: seq<Write>)
      modifies this
      ensures |acts| == |msgs| && table == Absorb(old(table), applied)
      ensures forall w :: w in applied <==> AckedIn(msgs, acts, site, w)
      ensures ForeignCovered(msgs, acts, site, table) && OnlyForeignWritten(msgs, acts, site, old(table), table)
      ensures forall i :: 0 <= i < |msgs| ==> Bounded(msgs[i], acts[i])
      ensures old(failures) <= failures && forall i :: 0 <= i < |msgs| ==> Earned(msgs[i], acts[i], failures > old(failures))
    {
      acts, applied := [], [];
      for n := 0 to |msgs|
        invariant |acts| == n
        invariant table == Absorb(old(table), applied)
        invariant forall w :: w in applied <==> AckedIn(msgs[..n], acts, site, w)
        invariant forall i :: 0 <= i < n ==> Bounded(msgs[i], acts[i])
        invariant old(failures) <= failures && forall i :: 0 <= i < n ==> Earned(msgs[i], acts[i], failures > old(failures))
      {
        ghost var had, were := applied, acts;
        var answer := ApplyOne(msgs[n].event);
        var act := match answer
          case Applied => Ack
          case Transient => if msgs[n].delivered >= transientMax then DeadLetter else Nak
          case Rejected => if msgs[n].delivered >= maxDeliver then DeadLetter else Nak;
        ghost var p := Parse(msgs[n].event, site);
        if answer.Applied? && p.Entry? {
          applied := applied + [p.write];
          AbsorbConcat(old(table), had, [p.write]);
          assert [p.write][1..] == [];
        }
        acts := acts + [act];
        assert msgs[..n + 1] == msgs[..n] + [msgs[n]];
        forall w
          ensures w in applied <==> AckedIn(msgs[..n + 1], acts, site, w)
        {
          AckedInSnoc(msgs[..n], were, msgs[n], act, site, w);
        }
      }
      assert msgs[..|msgs|] == msgs;
      JoinedIsForeign(msgs, acts, site, old(table), applied);
    }

    /** What can be read is acknowledged unless the database failed; what cannot goes back below the limit
        of its kind, and is parked at it. */
    ghost predicate Earned(d: Delivery, act: Disposition, failed: bool) {
      match d.event
      case Unparsable(retryable) => act == if d.delivered >= (if retryable then transientMax else maxDeliver) then DeadLetter else Nak
      case _ => act.Ack? || failed
    }

    predicate Bounded(d: Delivery, act: Disposition) {
      match act
      case Ack => true
      case Nak => d.delivered < Limit()
      case DeadLetter => d.delivered >= maxDeliver || d.delivered >= transientMax
    }

    /** One round of the stream loop.  The table becomes the old one joined with exactly the
        acknowledged changes of other sites, each of them covered by the target's row, and whatever
        can be read is acknowledged unless the database failed; a delivery that has reached the limit
        leaves the stream, applied or dead-lettered. */
    method HandleFetch(msgs: seq<Delivery>) returns (acts: seq<Disposition>, ghost applied: seq<Write>)
      modifies this
      ensures |acts| == |msgs| && table == Absorb(old(table), applied)
      ensures forall w :: w in applied <==> AckedIn(msgs, acts, site, w)
      ensures ForeignCovered(msgs, acts, site, table) && OnlyForeignWritten(msgs, acts, site, old(table), table)
      ensures forall i :: 0 <= i < |msgs| ==> Earned(msgs[i], acts[i], failures > old(failures))
      ensures forall i :: 0 <= i < |msgs| && msgs[i].delivered >= Limit() ==> acts[i].Ack? || acts[i].DeadLetter?
      ensures forall i :: 0 <= i < |msgs| ==> Bounded(msgs[i], acts[i])
    {
      if |msgs| > 1 {
        var answer := ApplyBatch(msgs);
        if answer.Applied? {
          applied :| multiset(applied) == multiset(Entries(msgs, site)) && Sorted(applied) && table == Absorb(old(table), applied);
          acts := EachAcked(msgs);
          BatchIsForeign(msgs, site, old(table), applied);
          return;
        }
      }
      acts, applied := HandleEach(msgs);
    }
  }

  ghost predicate AckedIn(msgs: seq<Delivery>, acts: seq<Disposition>, site: Site, w: Write)
    requires |acts| == |msgs|
  {
    exists i :: 0 <= i < |msgs| && acts[i].Ack? && Parse(msgs[i].event, site) == Entry(w)
  }

  lemma AckedInSnoc(msgs: seq<Delivery>, acts: seq<Disposition>, d: Delivery, act: Disposition, site: Site, w: Write)
    requires |acts| == |msgs|
    ensures AckedIn(msgs + [d], acts + [act], site, w) <==>
            AckedIn(msgs, acts, site, w) || (act.Ack? && Parse(d.event, site) == Entry(w))
  {
    var ms, acts' := msgs + [d], acts + [act];
    assert ms[|msgs|] == d && acts'[|msgs|] == act;
    if AckedIn(msgs, acts, site, w) {
      var i :| 0 <= i < |msgs| && acts[i].Ack? && Parse(msgs[i].event, site) == Entry(w);
      assert acts'[i].Ack? && Parse(ms[i].event, site) == Entry(w);
    }
  }

  lemma SameMembers(a: seq<Write>, b: seq<Write>)
    requires multiset(a) == multiset(b)
    ensures forall w :: w in a <==> w in b
  {
    forall w
      ensures w in a <==> w in b
    {
      assert w in a <==> w in multiset(a);
      assert w in b <==> w in multiset(b);
    }
  }

  /** A batch is nothing the mesh does not already allow: applying it to a site's table has
      the effect of delivering its messages one after the other. */
  lemma {:induction false} BatchIsDeliveries(m: Mesh, t: Site, ws: seq<Write>) returns (steps: seq<Step>)
    requires Inv(m) && t in m.sites
    requires forall w :: w in ws ==> w.row.origin != t && Message(t, w) in m.flight
    ensures ValidRun(m, steps) && |steps| == |ws|
    ensures t in After(m, steps).sites && After(m, steps).sites[t].table == Absorb(m.sites[t].table, ws)
    decreases |ws|
  {
    hide Inv, Accepts, Observe;
    if ws == [] {
      steps := [];
    } else {
      var acked := CanDeliver(m, Message(t, ws[0]));
      var step := acked.(ack := false);
      StepInv(m, step);
      StepFrame(m, step);
      var rest := BatchIsDeliveries(Next(m, step), t, ws[1..]);
      steps := [step] + rest;
      assert steps[1..] == rest;
    }
  }
}
