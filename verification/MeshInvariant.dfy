/** Every step of the mesh keeps the invariant. */
module MeshInvariant {
  import opened Hlc
  import opened Mesh

  lemma InitialInv(m: Mesh)
    requires Initial(m)
    ensures Inv(m)
  {
  }

  /** On a Postgres site every native stamp exceeds the row it overwrites. */
  lemma PostgresAdvances(m: Mesh, step: Step)
    requires Shape(m) && ClockCoversSeen(m)
    requires Enabled(m, step) && step.Native? && m.sites[step.site].engine.Postgres?
    ensures Advances(m, step)
  {
    var st := m.sites[step.site];
    TickRaisesStampIffInRange(st.clock);
    if step.key in st.table {
      assert Write(step.key, st.table[step.key]) in st.seen;
    }
  }

  // ---------------------------------------------------------------- native writes

  function NativeOf(m: Mesh, step: Step): Write
    requires Enabled(m, step) && step.Native?
  {
    Stamped(m.sites[step.site], step.site, step.key, step.cols, step.now)
  }

  lemma NativeLogged(m: Mesh, step: Step)
    requires Shape(m) && Logged(m) && Enabled(m, step) && step.Native?
    ensures Shape(Next(m, step)) && Logged(Next(m, step))
  {
    var m' := Next(m, step);
    forall s, k | s in m'.sites && k in m'.sites[s].table
      ensures Write(k, m'.sites[s].table[k]) in m'.log
    {
      if s != step.site || k != step.key {
        assert Write(k, m.sites[s].table[k]) in m.log;
      }
    }
  }

  lemma NativeStamps(m: Mesh, step: Step)
    requires Shape(m) && StampsUnique(m) && Enabled(m, step) && step.Native?
    ensures NativeOf(m, step) !in m.log
    ensures StampsUnique(Next(m, step))
  {
    TickRaisesStampIffInRange(m.sites[step.site].clock);
  }

  lemma NativeAtOrigin(m: Mesh, step: Step)
    requires Shape(m) && CoveredAtOrigin(m) && Enabled(m, step) && step.Native? && Advances(m, step)
    ensures CoveredAtOrigin(Next(m, step))
  {
    var m' := Next(m, step);
    forall w | w in m'.log && w.row.origin in m'.sites
      ensures Holds(m'.sites[w.row.origin], w)
    {
      if w != NativeOf(m, step) {
        assert Holds(m.sites[w.row.origin], w);
      }
    }
  }

  lemma NativeAlongEdges(m: Mesh, step: Step)
    requires Shape(m) && CoveredAlongEdges(m) && Enabled(m, step) && step.Native? && Advances(m, step)
    ensures CoveredAlongEdges(Next(m, step))
  {
    var m' := Next(m, step);
    var w := NativeOf(m, step);
    forall e, k | e in m'.edges && e.source in m'.sites && e.target in m'.sites && k in m'.sites[e.source].table
      ensures var w' := Write(k, m'.sites[e.source].table[k]);
              Holds(m'.sites[e.target], w') || UnderWay(m', e.target, w')
    {
      var w' := Write(k, m'.sites[e.source].table[k]);
      if e.source == step.site && k == step.key {
        assert Message(e.target, w) in Captured(m.edges, step.site, w);
        assert Message(e.target, w) in m'.flight;
      } else if !Holds(m.sites[e.target], w') {
        StillUnderWay(m, m', e.target, w');
      }
    }
  }

  lemma NativeClock(m: Mesh, step: Step)
    requires Shape(m) && Logged(m) && ClockCoversSeen(m) && CausesPrecede(m) && DriftBounded(m)
    requires Enabled(m, step) && step.Native? && NativeOf(m, step) !in m.log
    ensures ClockCoversSeen(Next(m, step)) && CausesPrecede(Next(m, step)) && DriftBounded(Next(m, step))
  {
    var st, m' := m.sites[step.site], Next(m, step);
    TickRaisesStampIffInRange(st.clock);
    PackingRoundTrips(Tick(st.clock, step.now), NativeOf(m, step).row.version);
    forall s, k | s in m'.sites && m'.sites[s].engine.Postgres? && k in m'.sites[s].table
      ensures Write(k, m'.sites[s].table[k]) in m'.sites[s].seen
    {
      if s != step.site || k != step.key {
        assert Write(k, m.sites[s].table[k]) in m.sites[s].seen;
      }
    }
  }

  lemma NativeInv(m: Mesh, step: Step)
    requires Inv(m) && Enabled(m, step) && step.Native? && Advances(m, step)
    ensures Inv(Next(m, step))
  {
    NativeLogged(m, step);
    NativeStamps(m, step);
    NativeAtOrigin(m, step);
    NativeAlongEdges(m, step);
    NativeClock(m, step);
  }

  lemma StillUnderWay(m: Mesh, m': Mesh, t: Site, w: Write)
    requires UnderWay(m, t, w) && m.flight <= m'.flight
    ensures UnderWay(m', t, w)
  {
    var msg :| msg in m.flight && msg.target == t && msg.write.key == w.key && AtLeast(msg.write.row, w.row);
    assert msg in m'.flight;
  }

  // ---------------------------------------------------------------- deliveries

  lemma ObserveKeepsClock(st: SiteState, w: Write, now: int, now': int)
    requires st.clock.InRange() && Observe(st, w, now, now').InRange()
    requires st.engine.Postgres? ==> ObserveMerge(st.clock, w.row.version, now).InRange()
    ensures Encode(st.clock) <= Encode(Observe(st, w, now, now'))
    ensures st.engine.Postgres? ==> w.row.version <= Encode(Observe(st, w, now, now'))
    ensures Observe(st, w, now, now').pt <= Max(Max(st.clock.pt, w.row.version / RADIX), Max(now, now'))
  {
    PackingPreservesOrder(st.clock, Observe(st, w, now, now'));
    if st.engine.Postgres? {
      MergeExceedsBoth(st.clock, w.row.version, now);
      MergeExceedsBoth(ObserveMerge(st.clock, w.row.version, now), w.row.version, now');
    }
  }

  predicate Applies(m: Mesh, step: Step) {
    Enabled(m, step) && step.Deliver? && !Skipped(step.msg)
  }

  lemma DeliverShape(m: Mesh, step: Step)
    requires Shape(m) && Applies(m, step)
    ensures Shape(Next(m, step))
  {
  }

  lemma DeliverLogged(m: Mesh, step: Step)
    requires Shape(m) && Logged(m) && Applies(m, step)
    ensures Shape(Next(m, step)) && Logged(Next(m, step))
  {
    DeliverShape(m, step);
    hide Shape;
    var m' := Next(m, step);
    forall s, k | s in m'.sites && k in m'.sites[s].table
      ensures Write(k, m'.sites[s].table[k]) in m'.log
    {
      if k in m.sites[s].table {
        assert Write(k, m.sites[s].table[k]) in m.log;
      }
    }
  }

  /** An upsert never lowers what a site holds, and afterwards it holds the delivered row. */
  lemma DeliverRaises(m: Mesh, step: Step, s: Site, w: Write)
    requires Applies(m, step) && s in m.sites
    ensures Holds(m.sites[s], w) ==> Holds(Next(m, step).sites[s], w)
    ensures Holds(Next(m, step).sites[step.msg.target], step.msg.write)
  {
  }

  lemma DeliverStamps(m: Mesh, step: Step)
    requires Shape(m) && Logged(m) && StampsUnique(m) && CoveredAtOrigin(m) && Applies(m, step)
    ensures StampsUnique(Next(m, step)) && CoveredAtOrigin(Next(m, step))
  {
    var m' := Next(m, step);
    ObserveKeepsClock(m.sites[step.msg.target], step.msg.write, step.now, step.now');
    forall w | w in m'.log && w.row.origin in m'.sites
      ensures Holds(m'.sites[w.row.origin], w)
    {
      assert Holds(m.sites[w.row.origin], w);
      DeliverRaises(m, step, w.row.origin, w);
    }
  }

  lemma DeliverClock(m: Mesh, step: Step)
    requires Shape(m) && Logged(m) && ClockCoversSeen(m) && CausesPrecede(m) && DriftBounded(m) && Applies(m, step)
    ensures ClockCoversSeen(Next(m, step)) && CausesPrecede(Next(m, step)) && DriftBounded(Next(m, step))
  {
    ObserveKeepsClock(m.sites[step.msg.target], step.msg.write, step.now, step.now');
    DeliverClockCovers(m, step);
    assert step.msg.write in m.log;
    hide ClockCoversSeen;
  }

  lemma DeliverClockCovers(m: Mesh, step: Step)
    requires Shape(m) && Logged(m) && ClockCoversSeen(m) && Applies(m, step)
    ensures ClockCoversSeen(Next(m, step))
  {
    var m' := Next(m, step);
    ObserveKeepsClock(m.sites[step.msg.target], step.msg.write, step.now, step.now');
    forall s, k | s in m'.sites && m'.sites[s].engine.Postgres? && k in m'.sites[s].table
      ensures Write(k, m'.sites[s].table[k]) in m'.sites[s].seen
    {
      if k in m.sites[s].table {
        assert Write(k, m.sites[s].table[k]) in m.sites[s].seen;
      }
    }
  }

  /** The acknowledged message no longer covers its target, but the target's own row now
      does: it was applied, or the target is its origin. */
  lemma DeliverCoversEdge(m: Mesh, step: Step, t: Site, w: Write)
    requires Enabled(m, step) && step.Deliver? && t in m.sites
    requires Skipped(step.msg) ==> Holds(m.sites[step.msg.target], step.msg.write)
    requires Holds(m.sites[t], w) || UnderWay(m, t, w)
    ensures Holds(Next(m, step).sites[t], w) || UnderWay(Next(m, step), t, w)
  {
    var msg, m' := step.msg, Next(m, step);
    if Applies(m, step) {
      DeliverRaises(m, step, t, w);
    }
    if !Holds(m.sites[t], w) && !(msg.target == t && msg.write.key == w.key && AtLeast(msg.write.row, w.row)) {
      var other :| other in m.flight && other.target == t && other.write.key == w.key && AtLeast(other.write.row, w.row);
      assert other in m'.flight;
    }
  }

  lemma DeliverAlongEdges(m: Mesh, step: Step)
    requires Shape(m) && Logged(m) && CoveredAtOrigin(m) && CoveredAlongEdges(m)
    requires Enabled(m, step) && step.Deliver?
    ensures CoveredAlongEdges(Next(m, step))
  {
    var msg, m' := step.msg, Next(m, step);
    assert Skipped(msg) ==> Holds(m.sites[msg.write.row.origin], msg.write);
    forall e, k | e in m'.edges && e.source in m'.sites && e.target in m'.sites && k in m'.sites[e.source].table
      ensures var w := Write(k, m'.sites[e.source].table[k]);
              Holds(m'.sites[e.target], w) || UnderWay(m', e.target, w)
    {
      var w := Write(k, m'.sites[e.source].table[k]);
      if k in m.sites[e.source].table && w.row == m.sites[e.source].table[k] {
        DeliverCoversEdge(m, step, e.target, w);
      } else {
        ForwardedOnAccept(m, step, e, k);
      }
    }
  }

  /** A row that changed at the target of a delivery is captured again towards every peer. */
  lemma ForwardedOnAccept(m: Mesh, step: Step, e: Edge, k: Key)
    requires Enabled(m, step) && step.Deliver? && e in m.edges && e.source in m.sites
    requires k in Next(m, step).sites[e.source].table
    requires k in m.sites[e.source].table ==> Next(m, step).sites[e.source].table[k] != m.sites[e.source].table[k]
    ensures UnderWay(Next(m, step), e.target, Write(k, Next(m, step).sites[e.source].table[k]))
  {
    var sent := Message(e.target, step.msg.write);
    assert sent in Captured(m.edges, step.msg.target, step.msg.write);
    assert sent in Next(m, step).flight;
  }

  lemma DeliverInv(m: Mesh, step: Step)
    requires Inv(m) && Enabled(m, step) && step.Deliver?
    ensures Inv(Next(m, step))
  {
    DeliverAlongEdges(m, step);
    if Applies(m, step) {
      DeliverLogged(m, step);
      DeliverStamps(m, step);
      DeliverClock(m, step);
    }
  }

  lemma RecaptureInv(m: Mesh, step: Step)
    requires Inv(m) && Enabled(m, step) && step.Recapture?
    ensures Inv(Next(m, step))
  {
    var m' := Next(m, step);
    forall e, k | e in m'.edges && k in m'.sites[e.source].table
      ensures var w := Write(k, m'.sites[e.source].table[k]);
              Holds(m'.sites[e.target], w) || UnderWay(m', e.target, w)
    {
      var w := Write(k, m.sites[e.source].table[k]);
      if !Holds(m.sites[e.target], w) {
        StillUnderWay(m, m', e.target, w);
      }
    }
  }

  lemma StepInv(m: Mesh, step: Step)
    requires Inv(m) && Admissible(m, step)
    ensures Inv(Next(m, step))
  {
    match step
    case Native(_, _, _, _) =>
      if m.sites[step.site].engine.Postgres? {
        PostgresAdvances(m, step);
      }
      NativeInv(m, step);
    case Deliver(_, _, _, _) => DeliverInv(m, step);
    case Recapture(_, _) => RecaptureInv(m, step);
  }

  /** In every run, from any initial mesh, the invariant holds throughout. */
  lemma {:induction false} RunInv(m: Mesh, steps: seq<Step>)
    requires Inv(m) && ValidRun(m, steps)
    ensures Inv(After(m, steps))
    decreases |steps|
  {
    if steps != [] {
      StepInv(m, steps[0]);
      RunInv(Next(m, steps[0]), steps[1..]);
    }
  }
}
