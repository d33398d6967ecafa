/** The multi-master replication mesh: sites with a clock and a table, change capture that
    forwards every accepted row along every outgoing edge, and sinks that drop a site's own
    echoes and apply the rest under a last-write-wins guard on (version, origin).

    Runs are arbitrary interleavings of native writes, deliveries in any order, redeliveries
    and re-captured events, with arbitrary physical clock readings. */
module Mesh {
  import opened Hlc

  /** A site id, as its rank in the order the origin column is compared in. */
  type Site = nat

  datatype Key = Key(schema: string, table: string, pk: seq<string>)

  datatype Row = Row(version: nat, origin: Site, cols: map<string, string>)

  datatype Write = Write(key: Key, row: Row)

  datatype Engine = Postgres | MySql | SqlServer

  /** `seen` is the site's history: what it stamped itself and what was applied to it. */
  datatype SiteState = SiteState(engine: Engine, clock: Clock, table: map<Key, Row>, seen: set<Write>)

  datatype Edge = Edge(source: Site, target: Site)

  datatype Message = Message(target: Site, write: Write)

  /** `log` maps every native write of the run to what its site had seen when it was stamped;
      `reading` is the largest physical clock reading taken anywhere so far. */
  datatype Mesh = Mesh(
    sites: map<Site, SiteState>,
    edges: set<Edge>,
    flight: multiset<Message>,
    log: map<Write, set<Write>>,
    reading: nat)

  datatype Step =
    | Native(site: Site, key: Key, cols: map<string, string>, now: int)
    | Deliver(msg: Message, now: int, now': int, ack: bool)
    | Recapture(edge: Edge, write: Write)

  /** The guard's order: version first, origin as tiebreak. */
  predicate Newer(r: Row, than: Row) {
    than.version < r.version || (than.version == r.version && than.origin < r.origin)
  }

  predicate AtLeast(r: Row, than: Row) {
    !Newer(than, r)
  }

  predicate Accepts(table: map<Key, Row>, w: Write) {
    w.key !in table || Newer(w.row, table[w.key])
  }

  function Upsert(table: map<Key, Row>, w: Write): map<Key, Row> {
    if Accepts(table, w) then table[w.key := w.row] else table
  }

  /** What the stamping trigger does to the clock when a replicated row is written.  The
      Postgres trigger fires BEFORE INSERT even when the row is then rejected, and again
      BEFORE UPDATE when an existing row is overwritten; SQL Server's AFTER trigger sees only
      rows that were written; MySQL's fires on the insert attempt. */
  function Observe(st: SiteState, w: Write, now: int, now': int): Clock {
    match st.engine
    case Postgres =>
      var c := ObserveMerge(st.clock, w.row.version, now);
      if w.key in st.table && Accepts(st.table, w) then ObserveMerge(c, w.row.version, now') else c
    case MySql => ObservePhysical(st.clock, w.row.version)
    case SqlServer => if Accepts(st.table, w) then ObservePhysical(st.clock, w.row.version) else st.clock
  }

  function Stamped(st: SiteState, s: Site, key: Key, cols: map<string, string>, now: int): Write {
    Write(key, Row(Encode(Tick(st.clock, now)), s, cols))
  }

  function WriteNative(st: SiteState, w: Write, now: int): SiteState {
    SiteState(st.engine, Tick(st.clock, now), st.table[w.key := w.row], st.seen + {w})
  }

  function ApplyRemote(st: SiteState, w: Write, now: int, now': int): SiteState {
    SiteState(st.engine, Observe(st, w, now, now'), Upsert(st.table, w), st.seen + {w})
  }

  function Captured(edges: set<Edge>, s: Site, w: Write): set<Message> {
    set e | e in edges && e.source == s :: Message(e.target, w)
  }

  predicate Skipped(msg: Message) {
    msg.write.row.origin == msg.target
  }

  /** The step can happen, and no logical counter it stores reaches 65536. */
  predicate Enabled(m: Mesh, step: Step) {
    match step
    case Native(s, key, cols, now) => s in m.sites && Tick(m.sites[s].clock, now).InRange()
    case Deliver(msg, now, now', _) =>
      && msg in m.flight
      && msg.target in m.sites
      && (Skipped(msg) ||
          var st := m.sites[msg.target];
          && Observe(st, msg.write, now, now').InRange()
          && (st.engine.Postgres? ==> ObserveMerge(st.clock, msg.write.row.version, now).InRange()))
    case Recapture(e, w) => e in m.edges && w in m.log
  }

  function Next(m: Mesh, step: Step): Mesh
    requires Enabled(m, step)
  {
    match step
    case Native(s, key, cols, now) =>
      var st := m.sites[s];
      var w := Stamped(st, s, key, cols, now);
      m.(sites := m.sites[s := WriteNative(st, w, now)],
         flight := m.flight + multiset(Captured(m.edges, s, w)),
         log := m.log[w := st.seen],
         reading := Max(m.reading, now))
    case Deliver(msg, now, now', ack) =>
      var rest := if ack then m.flight - multiset{msg} else m.flight;
      if Skipped(msg) then m.(flight := rest)
      else
        var st := m.sites[msg.target];
        var sent := if Accepts(st.table, msg.write) then Captured(m.edges, msg.target, msg.write) else {};
        m.(sites := m.sites[msg.target := ApplyRemote(st, msg.write, now, now')],
           flight := rest + multiset(sent),
           reading := Max(m.reading, Max(now, now')))
    case Recapture(e, w) => m.(flight := m.flight + multiset{Message(e.target, w)})
  }

  /** A native write's stamp exceeds that of the row it overwrites. */
  predicate Advances(m: Mesh, step: Step) {
    step.Native? && step.site in m.sites ==>
      var st := m.sites[step.site];
      Accepts(st.table, Stamped(st, step.site, step.key, step.cols, step.now))
  }

  /** On Postgres sites nothing is asked of a native write; on the others that it advances. */
  predicate Admissible(m: Mesh, step: Step) {
    && Enabled(m, step)
    && (step.Native? && !m.sites[step.site].engine.Postgres? ==> Advances(m, step))
  }

  ghost predicate Initial(m: Mesh) {
    && (forall s :: s in m.sites ==> m.sites[s].clock == Clock(0, 0) && m.sites[s].table == map[] && m.sites[s].seen == {})
    && (forall e :: e in m.edges ==> e.source in m.sites && e.target in m.sites)
    && m.flight == multiset{} && m.log == map[] && m.reading == 0
  }

  ghost predicate ValidRun(m: Mesh, steps: seq<Step>)
    decreases |steps|
  {
    steps == [] || (Admissible(m, steps[0]) && ValidRun(Next(m, steps[0]), steps[1..]))
  }

  ghost function After(m: Mesh, steps: seq<Step>): Mesh
    requires ValidRun(m, steps)
    decreases |steps|
  {
    if steps == [] then m else After(Next(m, steps[0]), steps[1..])
  }

  predicate Holds(st: SiteState, w: Write) {
    w.key in st.table && AtLeast(st.table[w.key], w.row)
  }

  // ---------------------------------------------------------------- invariant

  ghost predicate Shape(m: Mesh) {
    && (forall e :: e in m.edges ==> e.source in m.sites && e.target in m.sites)
    && (forall msg :: msg in m.flight ==> msg.target in m.sites)
    && (forall w :: w in m.log ==> w.row.origin in m.sites)
    && (forall s :: s in m.sites ==> m.sites[s].clock.InRange())
  }

  /** Nothing is stored, seen or in flight that was not natively written. */
  ghost predicate Logged(m: Mesh) {
    && (forall s, k {:trigger Write(k, m.sites[s].table[k])} :: s in m.sites && k in m.sites[s].table ==> Write(k, m.sites[s].table[k]) in m.log)
    && (forall s, w :: s in m.sites && w in m.sites[s].seen ==> w in m.log)
    && (forall msg :: msg in m.flight ==> msg.write in m.log)
  }

  /** A site's stamps stay at or below its clock, so no stamp is handed out twice. */
  ghost predicate StampsUnique(m: Mesh) {
    && (forall w :: w in m.log && w.row.origin in m.sites ==> w.row.version <= Encode(m.sites[w.row.origin].clock))
    && (forall w, w' :: w in m.log && w' in m.log && w.row.version == w'.row.version && w.row.origin == w'.row.origin ==> w == w')
  }

  /** Every write is covered at the site that made it, so dropping its echo loses nothing. */
  ghost predicate CoveredAtOrigin(m: Mesh) {
    forall w {:trigger Holds(m.sites[w.row.origin], w)} :: w in m.log && w.row.origin in m.sites ==> Holds(m.sites[w.row.origin], w)
  }

  ghost predicate UnderWay(m: Mesh, t: Site, w: Write) {
    exists msg :: msg in m.flight && msg.target == t && msg.write.key == w.key && AtLeast(msg.write.row, w.row)
  }

  /** Along every edge, what the source holds is held by the target or under way to it. */
  ghost predicate CoveredAlongEdges(m: Mesh) {
    forall e, k :: e in m.edges && e.source in m.sites && e.target in m.sites && k in m.sites[e.source].table ==>
      var w := Write(k, m.sites[e.source].table[k]);
      Holds(m.sites[e.target], w) || UnderWay(m, e.target, w)
  }

  /** A Postgres clock is at or past every version its site has seen. */
  ghost predicate ClockCoversSeen(m: Mesh) {
    forall s :: s in m.sites && m.sites[s].engine.Postgres? ==>
      && (forall w :: w in m.sites[s].seen ==> w.row.version <= Encode(m.sites[s].clock))
      && (forall k {:trigger Write(k, m.sites[s].table[k])} :: k in m.sites[s].table ==> Write(k, m.sites[s].table[k]) in m.sites[s].seen)
  }

  /** What a Postgres site had seen when it stamped a write has a smaller version. */
  ghost predicate CausesPrecede(m: Mesh) {
    && (forall w, c :: w in m.log && c in m.log[w] ==> c in m.log)
    && (forall w, c :: w in m.log && c in m.log[w] && w.row.origin in m.sites && m.sites[w.row.origin].engine.Postgres? ==>
          c.row.version < w.row.version)
  }

  /** No clock, hence no stamp, runs ahead of every physical clock in the mesh. */
  ghost predicate DriftBounded(m: Mesh) {
    && (forall s :: s in m.sites ==> m.sites[s].clock.pt <= m.reading)
    && (forall w :: w in m.log ==> w.row.version / RADIX <= m.reading)
  }

  ghost predicate Inv(m: Mesh) {
    && Shape(m)
    && Logged(m)
    && StampsUnique(m)
    && CoveredAtOrigin(m)
    && CoveredAlongEdges(m)
    && ClockCoversSeen(m)
    && CausesPrecede(m)
    && DriftBounded(m)
  }
}
