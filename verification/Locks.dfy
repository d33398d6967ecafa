/** Row locks of concurrent sinks.  Each sink applies a batch in one transaction, in the order
    of a sort key built from the row's identity, and holds every row lock to the end. */
module Locks {
  import opened Mesh
  import Text

  const SEP: char := 31 as char

  function Part(v: string, rest: string): string {
    Text.Itoa(|v|) + [':'] + (v + rest)
  }

  /** Each primary-key value, length-prefixed. */
  function Parts(pk: seq<string>): string {
    if pk == [] then [] else [SEP] + Part(pk[0], Parts(pk[1..]))
  }

  function SortKey(k: Key): string {
    k.schema + [SEP] + k.table + Parts(k.pk)
  }

  /** Identifiers free of the separator; the values of the key are arbitrary. */
  predicate CleanIdentifiers(k: Key) {
    SEP !in k.schema && SEP !in k.table
  }

  lemma {:induction false} PartsInjective(p: seq<string>, q: seq<string>)
    requires Parts(p) == Parts(q)
    ensures p == q
    decreases |p|
  {
    if p != [] && q != [] {
      assert Part(p[0], Parts(p[1..])) == Parts(p)[1..] && Part(q[0], Parts(q[1..])) == Parts(q)[1..];
      FirstPart(p[0], Parts(p[1..]), q[0], Parts(q[1..]));
      PartsInjective(p[1..], q[1..]);
      assert p == [p[0]] + p[1..] && q == [q[0]] + q[1..];
    }
  }

  /** The length prefix says where a value ends. */
  lemma FirstPart(v: string, rest: string, v': string, rest': string)
    requires Part(v, rest) == Part(v', rest')
    ensures v == v' && rest == rest'
  {
    var x, y := v + rest, v' + rest';
    assert ':' !in Text.Itoa(|v|) && ':' !in Text.Itoa(|v'|);
    Text.SplitUnique(Text.Itoa(|v|), x, Text.Itoa(|v'|), y, ':');
    Text.ItoaInjective(|v|, |v'|);
    assert v == x[..|v|] && v' == y[..|v'|];
    assert rest == x[|v|..] && rest' == y[|v'|..];
  }

  /** The sort key identifies the row: values holding the separator, or digits and colons,
      cannot make two rows collide. */
  lemma SortKeyInjective(a: Key, b: Key)
    requires CleanIdentifiers(a) && CleanIdentifiers(b) && SortKey(a) == SortKey(b)
    ensures a == b
  {
    var x, y := a.table + Parts(a.pk), b.table + Parts(b.pk);
    assert SortKey(a) == a.schema + [SEP] + x && SortKey(b) == b.schema + [SEP] + y;
    Text.SplitUnique(a.schema, x, b.schema, y, SEP);
    // One more separator makes the table name split off the same way, empty keys included.
    var px, py := Parts(a.pk) + [SEP], Parts(b.pk) + [SEP];
    assert px[0] == SEP && py[0] == SEP;
    assert a.table + [SEP] + px[1..] == x + [SEP] && b.table + [SEP] + py[1..] == y + [SEP];
    Text.SplitUnique(a.table, px[1..], b.table, py[1..], SEP);
    assert Parts(a.pk) == x[|a.table|..] && Parts(b.pk) == y[|b.table|..];
    PartsInjective(a.pk, b.pk);
  }

  // ---------------------------------------------------------------- the lock protocol

  type SinkId = nat

  /** A transaction: the rows it writes, in order, and how many it has locked. */
  datatype Tx = Idle | Running(plan: seq<Key>, locked: nat)

  datatype System = System(sinks: map<SinkId, Tx>, owner: map<Key, SinkId>)

  datatype Move =
    | Begin(sink: SinkId, plan: seq<Key>)
    | Acquire(sink: SinkId)
    | Finish(sink: SinkId)

  /** Ordered as sort.Slice leaves it: never descending, repeated rows adjacent. */
  ghost predicate Ordered(plan: seq<Key>) {
    && (forall i :: 0 <= i < |plan| ==> CleanIdentifiers(plan[i]))
    && (forall i, j :: 0 <= i < j < |plan| ==> Text.AtMost(SortKey(plan[i]), SortKey(plan[j])))
  }

  predicate Waiting(y: System, i: SinkId) {
    i in y.sinks && y.sinks[i].Running? && y.sinks[i].locked < |y.sinks[i].plan|
  }

  function Wants(y: System, i: SinkId): Key
    requires Waiting(y, i)
  {
    y.sinks[i].plan[y.sinks[i].locked]
  }

  /** `i` is waiting for a row lock that `j` holds. */
  predicate WaitsFor(y: System, i: SinkId, j: SinkId) {
    Waiting(y, i) && Wants(y, i) in y.owner && y.owner[Wants(y, i)] == j && j != i
  }

  /** A lock is granted when free or already held by the same transaction.  A transaction may
      finish at any point: by commit after its last row, or by rollback on an error. */
  ghost predicate Allowed(y: System, move: Move) {
    match move
    case Begin(i, plan) => i in y.sinks && y.sinks[i].Idle? && Ordered(plan)
    case Acquire(i) => Waiting(y, i) && (Wants(y, i) !in y.owner || y.owner[Wants(y, i)] == i)
    case Finish(i) => i in y.sinks && y.sinks[i].Running?
  }

  ghost function Do(y: System, move: Move): System
    requires Allowed(y, move)
  {
    match move
    case Begin(i, plan) => y.(sinks := y.sinks[i := Running(plan, 0)])
    case Acquire(i) =>
      var tx := y.sinks[i];
      System(y.sinks[i := Running(tx.plan, tx.locked + 1)], y.owner[Wants(y, i) := i])
    case Finish(i) =>
      System(y.sinks[i := Idle], map k | k in y.owner && y.owner[k] != i :: y.owner[k])
  }

  ghost predicate Reachable(y: System, moves: seq<Move>, y': System)
    decreases |moves|
  {
    if moves == [] then y' == y
    else Allowed(y, moves[0]) && Reachable(Do(y, moves[0]), moves[1..], y')
  }

  ghost predicate Fresh(y: System) {
    y.owner == map[] && forall i :: i in y.sinks ==> y.sinks[i].Idle?
  }

  /** A sink owns exactly the rows it has locked so far. */
  ghost predicate OwnsItsPrefix(y: System) {
    && (forall i :: i in y.sinks && y.sinks[i].Running? ==>
          && Ordered(y.sinks[i].plan)
          && y.sinks[i].locked <= |y.sinks[i].plan|
          && (forall n :: 0 <= n < y.sinks[i].locked ==> y.sinks[i].plan[n] in y.owner && y.owner[y.sinks[i].plan[n]] == i))
    && (forall k :: k in y.owner ==>
          && y.owner[k] in y.sinks && y.sinks[y.owner[k]].Running?
          && k in y.sinks[y.owner[k]].plan[..y.sinks[y.owner[k]].locked])
  }

  lemma MoveKeeps(y: System, move: Move)
    requires OwnsItsPrefix(y) && Allowed(y, move)
    ensures OwnsItsPrefix(Do(y, move))
  {
    if move.Acquire? {
      AcquireKeeps(y, move);
    }
  }

  lemma AcquireKeeps(y: System, move: Move)
    requires OwnsItsPrefix(y) && Allowed(y, move) && move.Acquire?
    ensures OwnsItsPrefix(Do(y, move))
  {
    var tx := y.sinks[move.sink];
    assert tx.plan[..tx.locked + 1] == tx.plan[..tx.locked] + [Wants(y, move.sink)];
  }

  lemma {:induction false} ReachableKeeps(y: System, moves: seq<Move>, y': System)
    requires OwnsItsPrefix(y) && Reachable(y, moves, y')
    ensures OwnsItsPrefix(y')
    decreases |moves|
  {
    if moves != [] {
      MoveKeeps(y, moves[0]);
      ReachableKeeps(Do(y, moves[0]), moves[1..], y');
    }
  }

  /** Following a wait to a sink that waits in turn strictly raises the wanted sort key. */
  lemma WaitAscends(y: System, i: SinkId, j: SinkId, l: SinkId)
    requires OwnsItsPrefix(y) && WaitsFor(y, i, j) && WaitsFor(y, j, l)
    ensures Text.Less(SortKey(Wants(y, i)), SortKey(Wants(y, j)))
  {
    var tx := y.sinks[j];
    var n :| 0 <= n < tx.locked && tx.plan[n] == Wants(y, i);
    assert Text.AtMost(SortKey(tx.plan[n]), SortKey(tx.plan[tx.locked]));
    if SortKey(Wants(y, i)) == SortKey(Wants(y, j)) {
      SortKeyInjective(Wants(y, i), Wants(y, j));
    }
    Text.Total(SortKey(Wants(y, i)), SortKey(Wants(y, j)));
  }

  /** Each sink of the chain waits for the next one. */
  ghost predicate WaitChain(y: System, chain: seq<SinkId>)
    decreases |chain|
  {
    && |chain| >= 2
    && WaitsFor(y, chain[0], chain[1])
    && (|chain| > 2 ==> WaitChain(y, chain[1..]))
  }

  lemma {:induction false} ChainAscends(y: System, chain: seq<SinkId>, next: SinkId)
    requires OwnsItsPrefix(y) && WaitChain(y, chain) && WaitsFor(y, chain[|chain| - 1], next)
    ensures Text.Less(SortKey(Wants(y, chain[0])), SortKey(Wants(y, chain[|chain| - 1])))
    decreases |chain|
  {
    if |chain| == 2 {
      WaitAscends(y, chain[0], chain[1], next);
    } else {
      WaitAscends(y, chain[0], chain[1], chain[1..][1]);
      ChainAscends(y, chain[1..], next);
      Text.Transitive(SortKey(Wants(y, chain[0])), SortKey(Wants(y, chain[1])), SortKey(Wants(y, chain[|chain| - 1])));
    }
  }

  /** Deadlock freedom.  In every reachable state of any number of concurrent sinks the
      wait-for graph has no cycle. */
  lemma NoDeadlock(y0: System, moves: seq<Move>, y: System, chain: seq<SinkId>)
    requires Fresh(y0) && Reachable(y0, moves, y) && WaitChain(y, chain)
    ensures chain[0] != chain[|chain| - 1]
  {
    ReachableKeeps(y0, moves, y);
    if chain[0] == chain[|chain| - 1] {
      ChainAscends(y, chain, chain[1]);
      Text.Total(SortKey(Wants(y, chain[0])), SortKey(Wants(y, chain[0])));
    }
  }

  /** The sinks whose wanted row sorts after `i`'s. */
  ghost function Above(y: System, i: SinkId): set<SinkId>
    requires Waiting(y, i)
  {
    set j | j in y.sinks && Waiting(y, j) && Text.Less(SortKey(Wants(y, i)), SortKey(Wants(y, j)))
  }

  /** Progress: as long as a transaction runs, some transaction can take its next lock or
      commit, without any of them being rolled back. */
  lemma {:induction false} SomeoneProceeds(y: System, i: SinkId) returns (move: Move)
    requires OwnsItsPrefix(y) && i in y.sinks && y.sinks[i].Running?
    ensures Allowed(y, move)
    ensures move.Acquire? || (move.Finish? && y.sinks[move.sink].locked == |y.sinks[move.sink].plan|)
    decreases if Waiting(y, i) then |Above(y, i)| + 1 else 0
  {
    if !Waiting(y, i) {
      move := Finish(i);
    } else if Wants(y, i) !in y.owner || y.owner[Wants(y, i)] == i {
      move := Acquire(i);
    } else {
      var j := y.owner[Wants(y, i)];
      if Waiting(y, j) && Wants(y, j) in y.owner && y.owner[Wants(y, j)] != j {
        var l := y.owner[Wants(y, j)];
        WaitAscends(y, i, j, l);
        AboveShrinks(y, i, j);
        move := SomeoneProceeds(y, j);
      } else if Waiting(y, j) {
        move := Acquire(j);
      } else {
        move := Finish(j);
      }
    }
  }

  lemma AboveShrinks(y: System, i: SinkId, j: SinkId)
    requires Waiting(y, i) && Waiting(y, j) && Text.Less(SortKey(Wants(y, i)), SortKey(Wants(y, j)))
    ensures |Above(y, j)| < |Above(y, i)|
  {
    forall l | l in Above(y, j)
      ensures l in Above(y, i)
    {
      Text.Transitive(SortKey(Wants(y, i)), SortKey(Wants(y, j)), SortKey(Wants(y, l)));
    }
    Text.Total(SortKey(Wants(y, j)), SortKey(Wants(y, j)));
    assert j in Above(y, i) && j !in Above(y, j);
    assert Above(y, i) == Above(y, j) + (Above(y, i) - Above(y, j));
  }
}
