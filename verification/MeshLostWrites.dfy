/** MySQL and SQL Server observe only the physical half of a replicated version.  A native
    write there can be stamped at or below the row it overwrites; this module states exactly
    what that costs, and shows a run where it happens. */
module MeshLostWrites {
  import opened Hlc
  import opened Mesh
  import opened MeshInvariant
  import opened MeshTheorems

  ghost predicate OnlyDeliveries(steps: seq<Step>) {
    forall i :: 0 <= i < |steps| ==> steps[i].Deliver?
  }

  /** Site `s` holds its own write, every other site still holds `r`, and only that write is
      in flight. */
  ghost predicate Stuck(m: Mesh, s: Site, w: Write, r: Row) {
    && s in m.sites && w.key in m.sites[s].table && m.sites[s].table[w.key] == w.row
    && w.row.origin == s
    && (forall t :: t in m.sites && t != s ==> w.key in m.sites[t].table && m.sites[t].table[w.key] == r)
    && (forall msg :: msg in m.flight ==> msg.write == w)
  }

  lemma {:induction false} StaysStuck(m: Mesh, s: Site, w: Write, r: Row, steps: seq<Step>)
    requires Stuck(m, s, w, r) && AtLeast(r, w.row) && ValidRun(m, steps) && OnlyDeliveries(steps)
    ensures Stuck(After(m, steps), s, w, r)
    decreases |steps|
  {
    if steps != [] {
      Unroll(m, steps);
      StaysStuck(Next(m, steps[0]), s, w, r, steps[1..]);
    }
  }

  lemma NotAdvancingSticks(m: Mesh, step: Step)
    requires Shape(m) && Logged(m) && StampsUnique(m)
    requires Quiescent(m) && SameTables(m) && Enabled(m, step) && step.Native? && !Advances(m, step)
    ensures step.key in m.sites[step.site].table
    ensures var r := m.sites[step.site].table[step.key];
            && AtLeast(r, NativeOf(m, step).row) && r != NativeOf(m, step).row
            && Stuck(Next(m, step), step.site, NativeOf(m, step), r)
  {
    var r := m.sites[step.site].table[step.key];
    NativeStamps(m, step);
    assert Write(step.key, r) in m.log;
  }

  ghost predicate SameTables(m: Mesh) {
    forall s, t :: s in m.sites && t in m.sites ==> m.sites[s].table == m.sites[t].table
  }

  lemma InvStamps(m: Mesh)
    requires Inv(m) && Converged(m)
    ensures Shape(m) && Logged(m) && StampsUnique(m) && SameTables(m)
  {
  }

  /** Exactly when a native write is survived.  Take a quiescent mesh of at least two sites,
      make one native write on any engine, and let the messages drain in any order: the mesh
      converges again if and only if the write's stamp exceeds the row it overwrote. */
  lemma ReconvergesIffAdvances(m: Mesh, step: Step, steps: seq<Step>, other: Site)
    requires Inv(m) && Quiescent(m) && StronglyConnected(m)
    requires Enabled(m, step) && step.Native? && other in m.sites && other != step.site
    requires ValidRun(Next(m, step), steps) && OnlyDeliveries(steps)
    requires Quiescent(After(Next(m, step), steps))
    ensures Converged(After(Next(m, step), steps)) <==> Advances(m, step)
  {
    hide Inv, Next, Converged, StronglyConnected, ValidRun, Enabled, Advances, Shape, Logged, StampsUnique, SameTables;
    var m1, m2 := Next(m, step), After(Next(m, step), steps);
    StepFrame(m, step);
    TopologyFixed(m1, steps);
    if Advances(m, step) {
      NativeInv(m, step);
      RunInv(m1, steps);
      ConnectedFrame(m, m2);
      QuiescentConverges(m2);
    } else {
      QuiescentConverges(m);
      InvStamps(m);
      NotAdvancingSticks(m, step);
      var w, r := NativeOf(m, step), m.sites[step.site].table[step.key];
      StaysStuck(m1, step.site, w, r, steps);
      assert m2.sites[step.site].table != m2.sites[other].table;
      DifferNotConverged(m2, step.site, other);
    }
  }

  lemma DifferNotConverged(m: Mesh, s: Site, t: Site)
    requires s in m.sites && t in m.sites && m.sites[s].table != m.sites[t].table
    ensures !Converged(m)
  {
  }

  // ---------------------------------------------------------------- a diverging run, at every reading

  const ROW_KEY := Key("public", "accounts", ["1"])
  const PEERS := {Edge(0, 1), Edge(1, 0)}

  /** The peer's two stamps when its physical clock reads `now` at both. */
  function FirstStamp(now: int): (c: Clock)
    ensures c.InRange() && c.pt == Max(0, now) && c.lc <= 1
  {
    Tick(Clock(0, 0), now)
  }

  function SecondStamp(now: int): (c: Clock)
    ensures c.InRange() && c.pt == Max(0, now) && c.lc == FirstStamp(now).lc + 1
  {
    Tick(FirstStamp(now), now)
  }

  function First(now: int): Write {
    Write(ROW_KEY, Row(Encode(FirstStamp(now)), 1, map["balance" := "10"]))
  }

  function Second(now: int): Write {
    Write(ROW_KEY, Row(Encode(SecondStamp(now)), 1, map["balance" := "15"]))
  }

  /** What site 0 writes at the same reading: its clock took over the physical half only. */
  function Lost(now: int): Write {
    Write(ROW_KEY, Row(Encode(Clock(Max(0, now), 1)), 0, map["balance" := "20"]))
  }

  lemma StampFacts(now: int)
    ensures First(now).row.version / RADIX == Second(now).row.version / RADIX == Max(0, now)
    ensures First(now) != Second(now) && Newer(Second(now).row, First(now).row)
    ensures AtLeast(Second(now).row, Lost(now).row) && !Newer(Lost(now).row, Second(now).row)
  {
    PackingRoundTrips(FirstStamp(now), 0);
    PackingRoundTrips(SecondStamp(now), 0);
  }

  function Two(engine: Engine, c0: Clock, t0: map<Key, Row>, s0: set<Write>, c1: Clock, t1: map<Key, Row>, s1: set<Write>,
               flight: multiset<Message>, log: map<Write, set<Write>>, reading: nat): Mesh {
    Mesh(map[0 := SiteState(engine, c0, t0, s0), 1 := SiteState(Postgres, c1, t1, s1)], PEERS, flight, log, reading)
  }

  function Start(engine: Engine): Mesh {
    Two(engine, Clock(0, 0), map[], {}, Clock(0, 0), map[], {}, multiset{}, map[], 0)
  }

  /** The peer has written once. */
  function WroteOnce(engine: Engine, now: int): Mesh {
    var w := First(now);
    Two(engine, Clock(0, 0), map[], {}, FirstStamp(now), map[ROW_KEY := w.row], {w}, multiset{Message(0, w)}, map[w := {}], Max(0, now))
  }

  /** The peer has written twice; site 0 has what the arguments say. */
  function WroteTwice(engine: Engine, now: int, c0: Clock, t0: map<Key, Row>, s0: set<Write>, flight: multiset<Message>): Mesh {
    var w, w' := First(now), Second(now);
    Two(engine, c0, t0, s0, SecondStamp(now), map[ROW_KEY := w'.row], {w, w'}, flight, map[w := {}, w' := {w}], Max(0, now))
  }

  function Sent(engine: Engine, now: int): Mesh {
    WroteTwice(engine, now, Clock(0, 0), map[], {}, multiset{Message(0, First(now)), Message(0, Second(now))})
  }

  function TookFirst(engine: Engine, now: int): Mesh {
    WroteTwice(engine, now, Clock(Max(0, now), 0), map[ROW_KEY := First(now).row], {First(now)},
               multiset{Message(0, Second(now)), Message(1, First(now))})
  }

  /** Site 0 has both writes; some of the echoes are still on their way back. */
  function TookBoth(engine: Engine, now: int, echoes: multiset<Message>): Mesh {
    WroteTwice(engine, now, Clock(Max(0, now), 0), map[ROW_KEY := Second(now).row], {First(now), Second(now)}, echoes)
  }

  function Settled(engine: Engine, now: int): Mesh {
    TookBoth(engine, now, multiset{})
  }

  function ToPeer(w: Write): Step {
    Deliver(Message(1, w), 0, 0, true)
  }

  function FromPeer(w: Write): Step {
    Deliver(Message(0, w), 0, 0, true)
  }

  /** The peer writes twice at one reading, the rows are replicated, and their echoes come back. */
  function Replicated(now: int): seq<Step> {
    [Native(1, ROW_KEY, map["balance" := "10"], now), Native(1, ROW_KEY, map["balance" := "15"], now),
     FromPeer(First(now)), FromPeer(Second(now)), ToPeer(First(now)), ToPeer(Second(now))]
  }

  lemma PeerCaptures(w: Write)
    ensures Captured(PEERS, 1, w) == {Message(0, w)} && Captured(PEERS, 0, w) == {Message(1, w)}
  {
    assert forall e :: e in PEERS && e.source == 1 ==> e == Edge(1, 0);
    assert forall e :: e in PEERS && e.source == 0 ==> e == Edge(0, 1);
    assert Edge(1, 0) in PEERS && Edge(0, 1) in PEERS;
  }

  ghost predicate Leads(m: Mesh, step: Step, m': Mesh) {
    Enabled(m, step) && Admissible(m, step) && Next(m, step) == m'
  }

  lemma FirstWrite(engine: Engine, now: int)
    ensures Leads(Start(engine), Replicated(now)[0], WroteOnce(engine, now))
  {
    hide Captured, Encode;
    PeerCaptures(First(now));
    var m, m' := Next(Start(engine), Replicated(now)[0]), WroteOnce(engine, now);
    assert m.sites[1] == m'.sites[1];
    assert m.sites == m'.sites;
    assert m.flight == multiset({Message(0, First(now))}) == m'.flight;
    assert m.log == m'.log;
  }

  lemma SecondWrite(engine: Engine, now: int)
    ensures Leads(WroteOnce(engine, now), Replicated(now)[1], Sent(engine, now))
  {
    hide Captured, Encode;
    PeerCaptures(Second(now));
    var m, m' := Next(WroteOnce(engine, now), Replicated(now)[1]), Sent(engine, now);
    assert m.sites[1] == m'.sites[1];
    assert m.sites == m'.sites;
    assert m.flight == multiset{Message(0, First(now))} + multiset({Message(0, Second(now))}) == m'.flight;
    assert m.log == m'.log;
  }

  lemma FirstArrives(engine: Engine, now: int)
    requires !engine.Postgres?
    ensures Leads(Sent(engine, now), FromPeer(First(now)), TookFirst(engine, now))
  {
    StampFacts(now);
    hide Captured, Encode;
    PeerCaptures(First(now));
    var m, m' := Next(Sent(engine, now), FromPeer(First(now))), TookFirst(engine, now);
    assert m.sites[0] == m'.sites[0];
    assert m.sites == m'.sites;
    assert m.flight == m'.flight;
  }

  lemma SecondArrives(engine: Engine, now: int)
    requires !engine.Postgres?
    ensures Leads(TookFirst(engine, now), FromPeer(Second(now)), TookBoth(engine, now, multiset{Message(1, First(now)), Message(1, Second(now))}))
  {
    StampFacts(now);
    hide Captured, Encode;
    PeerCaptures(Second(now));
    var m := Next(TookFirst(engine, now), FromPeer(Second(now)));
    var m' := TookBoth(engine, now, multiset{Message(1, First(now)), Message(1, Second(now))});
    assert m.sites[0] == m'.sites[0];
    assert m.sites == m'.sites;
    assert m.flight == m'.flight;
  }

  /** A site drops the echo of its own write. */
  lemma EchoDropped(engine: Engine, now: int, w: Write, rest: multiset<Message>)
    requires w.row.origin == 1
    ensures Leads(TookBoth(engine, now, rest + multiset{Message(1, w)}), ToPeer(w), TookBoth(engine, now, rest))
  {
    hide Encode;
    assert rest + multiset{Message(1, w)} - multiset{Message(1, w)} == rest;
  }

  lemma {:induction false} RunAlong(ms: seq<Mesh>, steps: seq<Step>)
    requires |ms| == |steps| + 1 && forall i :: 0 <= i < |steps| ==> Leads(ms[i], steps[i], ms[i + 1])
    ensures ValidRun(ms[0], steps) && After(ms[0], steps) == ms[|steps|]
    decreases |steps|
  {
    hide Next, Admissible;
    if steps != [] {
      assert Leads(ms[0], steps[0], ms[1]);
      forall i | 0 <= i < |steps| - 1 ensures Leads(ms[1..][i], steps[1..][i], ms[1..][i + 1]) {
        assert Leads(ms[i + 1], steps[i + 1], ms[i + 2]);
      }
      RunAlong(ms[1..], steps[1..]);
    }
  }

  function Passing(engine: Engine, now: int): seq<Mesh> {
    var w, w' := Message(1, First(now)), Message(1, Second(now));
    [Start(engine), WroteOnce(engine, now), Sent(engine, now), TookFirst(engine, now),
     TookBoth(engine, now, multiset{w, w'}), TookBoth(engine, now, multiset{w'}), Settled(engine, now)]
  }

  lemma PassingLeads(engine: Engine, now: int)
    requires !engine.Postgres?
    ensures forall i :: 0 <= i < 6 ==> Leads(Passing(engine, now)[i], Replicated(now)[i], Passing(engine, now)[i + 1])
  {
    hide Leads, WroteTwice, WroteOnce, Start;
    var w, w' := First(now), Second(now);
    FirstWrite(engine, now);
    SecondWrite(engine, now);
    FirstArrives(engine, now);
    SecondArrives(engine, now);
    assert multiset{Message(1, w')} + multiset{Message(1, w)} == multiset{Message(1, w), Message(1, w')};
    EchoDropped(engine, now, w, multiset{Message(1, w')});
    assert multiset{} + multiset{Message(1, w')} == multiset{Message(1, w')};
    EchoDropped(engine, now, w', multiset{});
    hide First, Second, TookFirst, TookBoth, Sent;
  }

  lemma ReplicatedReaches(engine: Engine, now: int)
    requires !engine.Postgres?
    ensures Initial(Start(engine)) && ValidRun(Start(engine), Replicated(now))
    ensures After(Start(engine), Replicated(now)) == Settled(engine, now)
  {
    hide Leads, WroteOnce, WroteTwice, First, Second, ValidRun, After;
    PassingLeads(engine, now);
    RunAlong(Passing(engine, now), Replicated(now));
  }

  lemma SettledConnected(engine: Engine, now: int)
    ensures StronglyConnected(Settled(engine, now))
  {
    forall s, t | s in Settled(engine, now).sites && t in Settled(engine, now).sites
      ensures exists path :: Connects(PEERS, path, s, t)
    {
      if s == t {
        assert Connects(PEERS, [s], s, t);
      } else {
        assert Connects(PEERS, [s, t], s, t);
      }
    }
  }

  /** The write that loses: made at site 0 at the reading the peer wrote at. */
  function Losing(now: int): Step {
    Native(0, ROW_KEY, map["balance" := "20"], now)
  }

  lemma LosingDrains(engine: Engine, now: int)
    requires !engine.Postgres?
    ensures Enabled(Settled(engine, now), Losing(now)) && !Advances(Settled(engine, now), Losing(now))
    ensures ValidRun(Next(Settled(engine, now), Losing(now)), [ToPeer(Lost(now))])
    ensures Quiescent(After(Next(Settled(engine, now), Losing(now)), [ToPeer(Lost(now))]))
  {
    StampFacts(now);
    PackingRoundTrips(Clock(Max(0, now), 1), 0);
    hide Encode, First, Second, Captured;
    PeerCaptures(Lost(now));
    var m1, last := Next(Settled(engine, now), Losing(now)), ToPeer(Lost(now));
    assert Tick(Clock(Max(0, now), 0), now) == Clock(Max(0, now), 1);
    assert m1.flight == multiset{Message(1, Lost(now))};
    assert m1.sites[1] == Settled(engine, now).sites[1];
    assert ValidRun(Next(m1, last), [last][1..]);
    assert Next(m1, last).flight == multiset{};
  }

  /** The hypothesis is needed: on MySQL and on SQL Server, whatever the physical clock reads,
      there is a reachable mesh in which a native write made while it still reads that does not
      advance.  The messages then drain, and whatever way they drain the two sites disagree for
      good. */
  lemma PhysicalObserveDiverges(engine: Engine, now: int, steps: seq<Step>)
    requires !engine.Postgres?
    ensures Initial(Start(engine)) && ValidRun(Start(engine), Replicated(now))
    ensures After(Start(engine), Replicated(now)) == Settled(engine, now) && Enabled(Settled(engine, now), Losing(now))
    ensures var m, last := Next(Settled(engine, now), Losing(now)), [ToPeer(Lost(now))];
            && ValidRun(m, last) && Quiescent(After(m, last)) && !Converged(After(m, last))
            && (ValidRun(m, steps) && OnlyDeliveries(steps) && Quiescent(After(m, steps)) ==> !Converged(After(m, steps)))
  {
    hide Inv, After, ValidRun, Converged, StronglyConnected;
    ReplicatedReaches(engine, now);
    InitialInv(Start(engine));
    RunInv(Start(engine), Replicated(now));
    SettledConnected(engine, now);
    LosingDrains(engine, now);
    ReconvergesIffAdvances(Settled(engine, now), Losing(now), [ToPeer(Lost(now))], 1);
    var m := Next(Settled(engine, now), Losing(now));
    if ValidRun(m, steps) && OnlyDeliveries(steps) && Quiescent(After(m, steps)) {
      ReconvergesIffAdvances(Settled(engine, now), Losing(now), steps, 1);
    }
  }
}
