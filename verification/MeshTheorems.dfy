/** What the mesh is for: convergence, causality, bounded traffic, and exactly when a native
    write on an engine that observes `pt` alone breaks it. */
module MeshTheorems {
  import opened Hlc
  import opened Mesh
  import opened MeshInvariant

  // ---------------------------------------------------------------- convergence

  ghost predicate IsPath(edges: set<Edge>, path: seq<Site>) {
    path != [] && forall i :: 0 <= i < |path| - 1 ==> Edge(path[i], path[i + 1]) in edges
  }

  ghost predicate Connects(edges: set<Edge>, path: seq<Site>, s: Site, t: Site) {
    IsPath(edges, path) && path[0] == s && path[|path| - 1] == t
  }

  /** Every site's changes can reach every other site, through forwarding if need be. */
  ghost predicate StronglyConnected(m: Mesh) {
    forall s, t :: s in m.sites && t in m.sites ==> exists path :: Connects(m.edges, path, s, t)
  }

  ghost predicate Quiescent(m: Mesh) {
    m.flight == multiset{}
  }

  /** All sites hold the same table, and it maps every key ever written to its greatest
      (version, origin) row. */
  ghost predicate Converged(m: Mesh) {
    && (forall s, t :: s in m.sites && t in m.sites ==> m.sites[s].table == m.sites[t].table)
    && (forall s, w :: s in m.sites && w in m.log ==> Holds(m.sites[s], w))
    && (forall s, k :: s in m.sites && k in m.sites[s].table ==> Write(k, m.sites[s].table[k]) in m.log)
  }

  lemma {:induction false} PathCovers(m: Mesh, path: seq<Site>, w: Write)
    requires Inv(m) && Quiescent(m) && IsPath(m.edges, path)
    requires path[0] in m.sites && Holds(m.sites[path[0]], w)
    ensures path[|path| - 1] in m.sites && Holds(m.sites[path[|path| - 1]], w)
    decreases |path|
  {
    if |path| > 1 {
      var e := Edge(path[0], path[1]);
      var row := m.sites[e.source].table[w.key];
      assert e in m.edges && Holds(m.sites[e.target], Write(w.key, row));
      PathCovers(m, path[1..], w);
    }
  }

  lemma QuiescentConverges(m: Mesh)
    requires Inv(m) && Quiescent(m) && StronglyConnected(m)
    ensures Converged(m)
  {
    forall s, w | s in m.sites && w in m.log
      ensures Holds(m.sites[s], w)
    {
      assert Holds(m.sites[w.row.origin], w);
      var path :| Connects(m.edges, path, w.row.origin, s);
      PathCovers(m, path, w);
    }
    forall s, t | s in m.sites && t in m.sites
      ensures m.sites[s].table == m.sites[t].table
    {
      SameRows(m, s, t);
      SameRows(m, t, s);
    }
  }

  lemma SameRows(m: Mesh, s: Site, t: Site)
    requires Inv(m) && s in m.sites && t in m.sites
    requires forall s', w :: s' in m.sites && w in m.log ==> Holds(m.sites[s'], w)
    ensures forall k :: k in m.sites[s].table ==> k in m.sites[t].table && m.sites[s].table[k] == m.sites[t].table[k]
  {
    forall k | k in m.sites[s].table
      ensures k in m.sites[t].table && m.sites[s].table[k] == m.sites[t].table[k]
    {
      var w := Write(k, m.sites[s].table[k]);
      assert w in m.log && Holds(m.sites[t], w);
      var w' := Write(k, m.sites[t].table[k]);
      assert w' in m.log && Holds(m.sites[s], w');
      assert w == w';
    }
  }

  lemma StepFrame(m: Mesh, step: Step)
    requires Enabled(m, step)
    ensures Next(m, step).edges == m.edges && Next(m, step).sites.Keys == m.sites.Keys
    ensures |Next(m, step).sites| == |m.sites|
    ensures forall s :: s in m.sites ==> Next(m, step).sites[s].engine == m.sites[s].engine
  {
    assert Next(m, step).sites.Keys == m.sites.Keys;
    assert |Next(m, step).sites| == |Next(m, step).sites.Keys| == |m.sites.Keys|;
  }

  /** What a valid run's first step says, without looking inside it. */
  lemma Unroll(m: Mesh, steps: seq<Step>)
    requires ValidRun(m, steps) && steps != []
    ensures Enabled(m, steps[0]) && Admissible(m, steps[0])
    ensures ValidRun(Next(m, steps[0]), steps[1..])
    ensures After(m, steps) == After(Next(m, steps[0]), steps[1..])
  {
  }

  lemma ConnectedFrame(m: Mesh, m': Mesh)
    requires StronglyConnected(m) && m'.edges == m.edges && m'.sites.Keys == m.sites.Keys
    ensures StronglyConnected(m')
  {
    forall s, t | s in m'.sites && t in m'.sites
      ensures exists path :: Connects(m'.edges, path, s, t)
    {
      assert s in m.sites && t in m.sites;
      var path :| Connects(m.edges, path, s, t);
    }
  }

  lemma {:induction false} TopologyFixed(m: Mesh, steps: seq<Step>)
    requires ValidRun(m, steps)
    ensures After(m, steps).edges == m.edges && After(m, steps).sites.Keys == m.sites.Keys
    ensures forall s :: s in m.sites ==> After(m, steps).sites[s].engine == m.sites[s].engine
    decreases |steps|
  {
    if steps != [] {
      StepFrame(m, steps[0]);
      TopologyFixed(Next(m, steps[0]), steps[1..]);
    }
  }

  /** Convergence.  In every run over every strongly connected topology, Postgres sites
      writing freely and the others as long as their stamps advance, once no message is in
      flight every site holds the same table: for every key the greatest row written. */
  lemma MeshConverges(m0: Mesh, steps: seq<Step>)
    requires Initial(m0) && StronglyConnected(m0) && ValidRun(m0, steps)
    requires Quiescent(After(m0, steps))
    ensures Converged(After(m0, steps))
  {
    hide *;
    InitialInv(m0);
    RunInv(m0, steps);
    TopologyFixed(m0, steps);
    ConnectedFrame(m0, After(m0, steps));
    QuiescentConverges(After(m0, steps));
  }

  // ---------------------------------------------------------------- causality and drift

  /** Each write of the chain was seen by the site of the next one when that was stamped. */
  ghost predicate CausalChain(m: Mesh, chain: seq<Write>) {
    && chain != []
    && chain[0] in m.log
    && forall i :: 0 < i < |chain| ==>
         && chain[i] in m.log && chain[i - 1] in m.log[chain[i]]
         && chain[i].row.origin in m.sites && m.sites[chain[i].row.origin].engine.Postgres?
  }

  lemma {:induction false} ChainAscends(m: Mesh, chain: seq<Write>)
    requires CausesPrecede(m) && CausalChain(m, chain)
    ensures |chain| > 1 ==> chain[0].row.version < chain[|chain| - 1].row.version
    decreases |chain|
  {
    if |chain| > 1 {
      var init := chain[..|chain| - 1];
      forall i | 0 < i < |init|
        ensures init[i] in m.log && init[i - 1] in m.log[init[i]]
      {
        assert chain[i] in m.log && chain[i - 1] in m.log[chain[i]];
      }
      ChainAscends(m, init);
      assert chain[|chain| - 2] in m.log[chain[|chain| - 1]];
    }
  }

  /** Causality.  In every run, versions strictly increase along every chain of happened-before
      through Postgres sites, however many sites it crosses; two different native writes never
      share a (version, origin); and no clock runs ahead of the largest physical reading. */
  lemma CausalityRespected(m0: Mesh, steps: seq<Step>, chain: seq<Write>)
    requires Initial(m0) && ValidRun(m0, steps)
    ensures CausalChain(After(m0, steps), chain) && |chain| > 1 ==>
              chain[0].row.version < chain[|chain| - 1].row.version
    ensures StampsUnique(After(m0, steps)) && DriftBounded(After(m0, steps))
  {
    hide *;
    InitialInv(m0);
    RunInv(m0, steps);
    InvParts(After(m0, steps));
    if CausalChain(After(m0, steps), chain) {
      ChainAscends(After(m0, steps), chain);
    }
  }

  lemma InvParts(m: Mesh)
    requires Inv(m)
    ensures StampsUnique(m) && CausesPrecede(m) && DriftBounded(m)
  {
  }

  // ---------------------------------------------------------------- no echo storm

  /** The (site, write) pairs still owed: the site's row is older than the write. */
  ghost function Missing(m: Mesh): set<(Site, Write)> {
    set s, w | s in m.sites && w in m.log && !Holds(m.sites[s], w) :: (s, w)
  }

  predicate AcceptedAt(m: Mesh, step: Step) {
    Applies(m, step) && Accepts(m.sites[step.msg.target].table, step.msg.write)
  }

  /** Messages that capture puts in flight in this step. */
  function SentBy(m: Mesh, step: Step): set<Message>
    requires Enabled(m, step)
  {
    if step.Native? then Captured(m.edges, step.site, NativeOf(m, step))
    else if AcceptedAt(m, step) then Captured(m.edges, step.msg.target, step.msg.write)
    else {}
  }

  ghost function Natives(steps: seq<Step>): nat {
    if steps == [] then 0 else (if steps[0].Native? then 1 else 0) + Natives(steps[1..])
  }

  ghost function AcceptedIn(m: Mesh, steps: seq<Step>): nat
    requires ValidRun(m, steps)
    decreases |steps|
  {
    if steps == [] then 0
    else (if AcceptedAt(m, steps[0]) then 1 else 0) + AcceptedIn(Next(m, steps[0]), steps[1..])
  }

  ghost function SentIn(m: Mesh, steps: seq<Step>): nat
    requires ValidRun(m, steps)
    decreases |steps|
  {
    if steps == [] then 0 else |SentBy(m, steps[0])| + SentIn(Next(m, steps[0]), steps[1..])
  }

  lemma SubsetSize<T>(a: set<T>, b: set<T>)
    requires a <= b
    ensures |a| <= |b|
    ensures a < b ==> |a| < |b|
  {
    assert b == a + (b - a);
  }

  lemma {:induction false} ProductSize(sites: set<Site>, w: Write, pairs: set<(Site, Write)>)
    requires forall p :: p in pairs ==> p.0 in sites && p.1 == w
    ensures |pairs| <= |sites|
    decreases sites
  {
    if sites != {} {
      var s :| s in sites;
      ProductSize(sites - {s}, w, pairs - {(s, w)});
      assert pairs <= (pairs - {(s, w)}) + {(s, w)};
      SubsetSize(pairs, (pairs - {(s, w)}) + {(s, w)});
    } else {
      assert pairs == {};
    }
  }

  /** An accepted apply strictly shrinks what is owed, and no delivery enlarges it. */
  lemma DeliverShrinksMissing(m: Mesh, step: Step)
    requires Inv(m) && Enabled(m, step) && !step.Native?
    ensures |Missing(Next(m, step))| + (if AcceptedAt(m, step) then 1 else 0) <= |Missing(m)|
  {
    var m' := Next(m, step);
    forall p | p in Missing(m')
      ensures p in Missing(m)
    {
      if Applies(m, step) {
        DeliverRaises(m, step, p.0, p.1);
      }
    }
    SubsetSize(Missing(m'), Missing(m));
    if AcceptedAt(m, step) {
      var p := (step.msg.target, step.msg.write);
      DeliverRaises(m, step, p.0, p.1);
      assert p in Missing(m) && p !in Missing(m');
    }
  }

  lemma NativeGrowsMissing(m: Mesh, step: Step)
    requires Inv(m) && Enabled(m, step) && step.Native? && Advances(m, step)
    ensures |Missing(Next(m, step))| <= |Missing(m)| + |m.sites| - 1
  {
    var m', w := Next(m, step), NativeOf(m, step);
    var owed := set s | s in m.sites.Keys - {step.site} :: (s, w);
    ProductSize(m.sites.Keys - {step.site}, w, owed);
    forall p | p in Missing(m')
      ensures p in Missing(m) + owed
    {
      if p.1 != w {
        assert p.1 in m.log && !Holds(m.sites[p.0], p.1);
      }
    }
    SubsetSize(Missing(m'), Missing(m) + owed);
  }

  lemma {:induction false} MissingBoundsAccepted(m: Mesh, steps: seq<Step>)
    requires Inv(m) && ValidRun(m, steps)
    ensures AcceptedIn(m, steps) + |Missing(After(m, steps))| <= |Missing(m)| + Natives(steps) * (|m.sites| - 1)
    decreases |steps|
  {
    hide Inv, Missing, AcceptedAt, Next, Admissible, Enabled;
    if steps != [] {
      var step := steps[0];
      Unroll(m, steps);
      StepInv(m, step);
      StepFrame(m, step);
      MissingBoundsAccepted(Next(m, step), steps[1..]);
      StepMissing(m, step);
      var n := |m.sites| - 1;
      assert (Natives(steps[1..]) + 1) * n == Natives(steps[1..]) * n + n;
    }
  }

  lemma StepMissing(m: Mesh, step: Step)
    requires Inv(m) && Admissible(m, step)
    ensures |Missing(Next(m, step))| + (if AcceptedAt(m, step) then 1 else 0) <=
            |Missing(m)| + (if step.Native? then |m.sites| - 1 else 0)
  {
    hide Inv, Missing, Next, Accepts;
    if step.Native? {
      if m.sites[step.site].engine.Postgres? {
        AdvancesByInv(m, step);
      }
      NativeGrowsMissing(m, step);
    } else {
      DeliverShrinksMissing(m, step);
    }
  }

  lemma AdvancesByInv(m: Mesh, step: Step)
    requires Inv(m) && Enabled(m, step) && step.Native? && m.sites[step.site].engine.Postgres?
    ensures Advances(m, step)
  {
    PostgresAdvances(m, step);
  }

  ghost predicate DegreeAtMost(edges: set<Edge>, d: nat) {
    forall s, w :: |Captured(edges, s, w)| <= d
  }

  lemma {:induction false} SentBoundedByAccepted(m: Mesh, steps: seq<Step>, d: nat)
    requires ValidRun(m, steps) && DegreeAtMost(m.edges, d)
    ensures SentIn(m, steps) <= (Natives(steps) + AcceptedIn(m, steps)) * d
    decreases |steps|
  {
    if steps != [] {
      var step, m' := steps[0], Next(m, steps[0]);
      SentBoundedByAccepted(m', steps[1..], d);
      var rest := Natives(steps[1..]) + AcceptedIn(m', steps[1..]);
      assert |SentBy(m, step)| <= if step.Native? || AcceptedAt(m, step) then d else 0;
      assert (rest + 1) * d == rest * d + d;
    }
  }

  /** No echo storm.  Whatever is redelivered, recaptured or reordered, a whole run accepts at
      most sites - 1 applies for each native write, and captures at most sites * degree
      messages for each native write. */
  lemma NoEchoStorm(m0: Mesh, steps: seq<Step>, d: nat)
    requires Initial(m0) && ValidRun(m0, steps) && DegreeAtMost(m0.edges, d) && m0.sites != map[]
    ensures AcceptedIn(m0, steps) <= Natives(steps) * (|m0.sites| - 1)
    ensures SentIn(m0, steps) <= Natives(steps) * |m0.sites| * d
  {
    hide Inv, Next, Admissible, DegreeAtMost, AcceptedIn, SentIn, ValidRun, Natives;
    InitialInv(m0);
    assert Missing(m0) == {};
    MissingBoundsAccepted(m0, steps);
    SentBoundedByAccepted(m0, steps, d);
    var n, k, a := Natives(steps), |m0.sites|, AcceptedIn(m0, steps);
    assert n * (k - 1) + n == n * k;
    MulMonotone(n + a, n * k, d);
  }

  lemma MulMonotone(a: nat, b: nat, d: nat)
    requires a <= b
    ensures a * d <= b * d
  {
  }

  // ---------------------------------------------------------------- draining

  ghost predicate AllAcked(steps: seq<Step>) {
    forall i :: 0 <= i < |steps| ==> steps[i].Deliver? && steps[i].ack
  }

  lemma AckedStepPays(m: Mesh, step: Step, d: nat)
    requires Inv(m) && Enabled(m, step) && step.Deliver? && step.ack && DegreeAtMost(m.edges, d)
    ensures |Next(m, step).flight| + d * |Missing(Next(m, step))| < |m.flight| + d * |Missing(m)|
  {
    hide Inv, Missing, Next, AcceptedAt, Captured;
    var m' := Next(m, step);
    DeliverShrinksMissing(m, step);
    AckedFlight(m, step);
    var a, b := |Missing(m')|, |Missing(m)|;
    if AcceptedAt(m, step) {
      MulMonotone(a + 1, b, d);
      assert (a + 1) * d == a * d + d;
    } else {
      MulMonotone(a, b, d);
    }
  }

  /** An acknowledged delivery takes its message out and puts in what it makes capture send. */
  lemma AckedFlight(m: Mesh, step: Step)
    requires Enabled(m, step) && step.Deliver? && step.ack
    ensures |Next(m, step).flight| == |m.flight| - 1 + |SentBy(m, step)|
    ensures AcceptedAt(m, step) ==> SentBy(m, step) == Captured(m.edges, step.msg.target, step.msg.write)
    ensures !AcceptedAt(m, step) ==> SentBy(m, step) == {}
  {
    var sent := SentBy(m, step);
    assert Next(m, step).flight == m.flight - multiset{step.msg} + multiset(sent);
    assert |multiset(sent)| == |sent|;
  }

  /** Acknowledged deliveries cannot go on for ever. */
  lemma {:induction false} DrainIsBounded(m: Mesh, steps: seq<Step>, d: nat)
    requires Inv(m) && ValidRun(m, steps) && AllAcked(steps) && DegreeAtMost(m.edges, d)
    ensures |steps| + |After(m, steps).flight| <= |m.flight| + d * |Missing(m)|
    decreases |steps|
  {
    hide Inv, Next, Admissible, Missing, DegreeAtMost;
    if steps != [] {
      Unroll(m, steps);
      StepInv(m, steps[0]);
      StepFrame(m, steps[0]);
      AckedStepPays(m, steps[0], d);
      DrainIsBounded(Next(m, steps[0]), steps[1..], d);
    }
  }

  /** A physical reading past everything known resets the counter, so a message can always
      be delivered. */
  lemma CanDeliver(m: Mesh, msg: Message) returns (step: Step)
    requires Inv(m) && msg in m.flight
    ensures step.Deliver? && step.ack && step.msg == msg && Admissible(m, step)
  {
    var st := m.sites[msg.target];
    var now := Max(st.clock.pt, msg.write.row.version / RADIX) + 1;
    step := Deliver(msg, now, now + 1, true);
  }

  /** From every reachable state the mesh can be drained, and then it has converged. */
  lemma {:induction false} Drains(m: Mesh, d: nat) returns (steps: seq<Step>)
    requires Inv(m) && DegreeAtMost(m.edges, d) && StronglyConnected(m)
    ensures ValidRun(m, steps) && AllAcked(steps)
    ensures Quiescent(After(m, steps)) && Converged(After(m, steps))
    decreases |m.flight| + d * |Missing(m)|
  {
    hide Inv, Next, Missing, Converged, Enabled, StronglyConnected, DegreeAtMost;
    if Quiescent(m) {
      steps := [];
      QuiescentConverges(m);
    } else {
      var msg :| msg in m.flight;
      var step := CanDeliver(m, msg);
      StepInv(m, step);
      StepFrame(m, step);
      AckedStepPays(m, step, d);
      ConnectedFrame(m, Next(m, step));
      var rest := Drains(Next(m, step), d);
      steps := [step] + rest;
      assert steps[1..] == rest;
    }
  }
}
