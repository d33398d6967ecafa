/** The Hybrid Logical Clock each site keeps in its one-row table `mm_hlc_state`.

    A stamp packs physical milliseconds and a logical counter into one integer,
    `pt * 65536 + lc`.  All three engines tick the same way; they differ in how a
    replicated row's version is observed: Postgres merges both parts, MySQL and
    SQL Server raise `pt` alone. */
module Hlc {

  const RADIX: nat := 65536

  datatype Clock = Clock(pt: nat, lc: nat) {
    /** The counter still fits under the physical part of the stamp. */
    predicate InRange() {
      lc < RADIX
    }

    predicate Before(that: Clock) {
      pt < that.pt || (pt == that.pt && lc < that.lc)
    }
  }

  function Max(a: int, b: int): int {
    if a < b then b else a
  }

  function Encode(c: Clock): nat {
    c.pt * RADIX + c.lc
  }

  function Decode(version: nat): Clock {
    Clock(version / RADIX, version % RADIX)
  }

  /** `mm_hlc_tick`, and the native branch of the MySQL and SQL Server triggers. */
  function Tick(c: Clock, now: int): Clock {
    if now > c.pt then Clock(now, 0) else Clock(c.pt, c.lc + 1)
  }

  /** `mm_hlc_observe` on Postgres. */
  function ObserveMerge(c: Clock, version: nat, now: int): Clock {
    var r := Decode(version);
    var np := Max(Max(c.pt, r.pt), now);
    if np == c.pt && np == r.pt then Clock(np, Max(c.lc, r.lc) + 1)
    else if np == c.pt then Clock(np, c.lc + 1)
    else if np == r.pt then Clock(np, r.lc + 1)
    else Clock(np, 0)
  }

  /** The replication branch of the MySQL and SQL Server triggers. */
  function ObservePhysical(c: Clock, version: nat): Clock {
    Clock(Max(c.pt, version / RADIX), c.lc)
  }

  /** Packing and unpacking are inverse to each other, in both directions, while the
      counter is in range. */
  lemma PackingRoundTrips(c: Clock, version: nat)
    ensures Encode(Decode(version)) == version && Decode(version).InRange()
    ensures Decode(Encode(c)) == c <==> c.InRange()
  {
    assert Decode(version).pt * RADIX + Decode(version).lc == version;
    if c.InRange() {
      assert (c.pt * RADIX + c.lc) / RADIX == c.pt;
    }
  }

  /** On clocks in range, comparing stamps is comparing (pt, lc) lexicographically. */
  lemma PackingPreservesOrder(a: Clock, b: Clock)
    requires a.InRange() && b.InRange()
    ensures Encode(a) < Encode(b) <==> a.Before(b)
    ensures Encode(a) == Encode(b) <==> a == b
  {
    if a.pt < b.pt {
      assert (a.pt + 1) * RADIX <= b.pt * RADIX;
    } else if b.pt < a.pt {
      assert (b.pt + 1) * RADIX <= a.pt * RADIX;
    }
  }

  /** A tick raises the stamp whatever the physical clock reads exactly when the counter
      is in range: the bound 65536 is sharp. */
  lemma TickRaisesStampIffInRange(c: Clock)
    ensures c.InRange() <==> forall now: int :: Encode(c) < Encode(Tick(c, now))
  {
    if c.InRange() {
      forall now: int
        ensures Encode(c) < Encode(Tick(c, now))
      {
        if now > c.pt {
          assert (c.pt + 1) * RADIX <= now * RADIX;
        }
      }
    } else {
      var now := c.pt + 1;
      assert Encode(Tick(c, now)) == (c.pt + 1) * RADIX <= Encode(c);
    }
  }

  /** Observing on Postgres moves strictly past both the local clock and the observed
      version, so the next tick, at any physical time, exceeds the observed version. */
  lemma MergeExceedsBoth(c: Clock, version: nat, now: int)
    ensures c.Before(ObserveMerge(c, version, now))
    ensures Decode(version).Before(ObserveMerge(c, version, now))
    ensures c.InRange() && ObserveMerge(c, version, now).InRange() ==>
              Encode(c) < Encode(ObserveMerge(c, version, now))
    ensures ObserveMerge(c, version, now).InRange() ==> version < Encode(ObserveMerge(c, version, now))
  {
    PackingRoundTrips(c, version);
    var o := ObserveMerge(c, version, now);
    if o.InRange() {
      PackingPreservesOrder(Decode(version), o);
      if c.InRange() {
        PackingPreservesOrder(c, o);
      }
    }
  }

  /** The MySQL and SQL Server observation never moves a clock back, but the next native
      stamp exceeds the observed version only under the stated condition: a later
      millisecond, an already later `pt`, or a local counter that happens to reach the
      remote one. */
  lemma PhysicalObserveCoversIff(c: Clock, version: nat, now: int)
    requires c.InRange() && Tick(ObservePhysical(c, version), now).InRange()
    ensures Encode(c) <= Encode(ObservePhysical(c, version))
    ensures version < Encode(Tick(ObservePhysical(c, version), now)) <==>
            (now > Max(c.pt, version / RADIX) || c.pt > version / RADIX || c.lc >= version % RADIX)
  {
    PackingRoundTrips(c, version);
    var o := ObservePhysical(c, version);
    PackingPreservesOrder(Decode(version), Tick(o, now));
    PackingPreservesOrder(c, o);
  }

  /** What one site does to its clock: stamp a native write, or observe a replicated row
      by either rule. */
  datatype ClockEvent =
    | Stamp(now: int)
    | Merge(version: nat, now: int)
    | Physical(version: nat)

  function Advance(c: Clock, e: ClockEvent): Clock {
    match e
    case Stamp(now) => Tick(c, now)
    case Merge(v, now) => ObserveMerge(c, v, now)
    case Physical(v) => ObservePhysical(c, v)
  }

  /** The clock after the first events. */
  function ClockAfter(c: Clock, events: seq<ClockEvent>): Clock {
    if events == [] then c else Advance(ClockAfter(c, events[..|events| - 1]), events[|events| - 1])
  }

  ghost predicate StaysInRange(c: Clock, events: seq<ClockEvent>) {
    forall n :: 0 <= n <= |events| ==> ClockAfter(c, events[..n]).InRange()
  }

  lemma {:induction false} ClockNeverFalls(c: Clock, events: seq<ClockEvent>, i: nat, j: nat)
    requires i <= j <= |events| && StaysInRange(c, events)
    ensures Encode(ClockAfter(c, events[..i])) <= Encode(ClockAfter(c, events[..j]))
    decreases j
  {
    if i < j {
      ClockNeverFalls(c, events, i, j - 1);
      var prior := ClockAfter(c, events[..j - 1]);
      assert events[..j][..j - 1] == events[..j - 1];
      AdvanceNeverFalls(prior, events[j - 1]);
    }
  }

  lemma AdvanceNeverFalls(c: Clock, e: ClockEvent)
    requires c.InRange() && Advance(c, e).InRange()
    ensures Encode(c) <= Encode(Advance(c, e))
    ensures e.Stamp? ==> Encode(c) < Encode(Advance(c, e))
  {
    PackingPreservesOrder(c, Advance(c, e));
  }

  /** For any physical readings, backward ones included, mixed with any observations by
      either rule, the stamps a site hands out strictly increase. */
  lemma StampsIncrease(c: Clock, events: seq<ClockEvent>, i: nat, j: nat)
    requires i < j < |events| && events[i].Stamp? && events[j].Stamp?
    requires StaysInRange(c, events)
    ensures Encode(ClockAfter(c, events[..i + 1])) < Encode(ClockAfter(c, events[..j + 1]))
  {
    ClockNeverFalls(c, events, i + 1, j);
    assert events[..j + 1][..j] == events[..j];
    AdvanceNeverFalls(ClockAfter(c, events[..j]), events[j]);
  }

  /** The clock row itself, updated in place by the triggers. */
  class HlcState {
    var pt: nat
    var lc: nat

    constructor ()
      ensures Value() == Clock(0, 0)
    {
      pt, lc := 0, 0;
    }

    function Value(): Clock
      reads this
    {
      Clock(pt, lc)
    }

    method TickRow(now: int) returns (version: nat)
      modifies this
      ensures Value() == Tick(old(Value()), now)
      ensures version == Encode(Value())
      ensures old(Value()).InRange() ==> Encode(old(Value())) < version
    {
      TickRaisesStampIffInRange(Value());
      if now > pt {
        pt, lc := now, 0;
      } else {
        lc := lc + 1;
      }
      version := pt * RADIX + lc;
    }

    method ObserveRow(version: nat, now: int)
      modifies this
      ensures Value() == ObserveMerge(old(Value()), version, now)
      ensures Value().InRange() ==> version < Encode(Value())
    {
      MergeExceedsBoth(Value(), version, now);
      var rp, rl := version / RADIX, version % RADIX;
      var np := Max(Max(pt, rp), now);
      var nl;
      if np == pt && np == rp {
        nl := Max(lc, rl) + 1;
      } else if np == pt {
        nl := lc + 1;
      } else if np == rp {
        nl := rl + 1;
      } else {
        nl := 0;
      }
      pt, lc := np, nl;
    }

    method ObserveRowPhysical(version: nat)
      modifies this
      ensures Value() == ObservePhysical(old(Value()), version)
    {
      if version / RADIX > pt {
        pt := version / RADIX;
      }
    }
  }
}
