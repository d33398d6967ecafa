/** The three upsert dialects of the sink, on one target row, with SQL's three-valued logic:
    Postgres INSERT .. ON CONFLICT DO UPDATE .. WHERE, SQL Server MERGE, and the MySQL pair
    of statements; and the left-to-right ON DUPLICATE KEY form that the pair replaces. */
module Dialects {
  import Text

  type Col = string

  datatype Val = Null | Num(n: int) | Str(s: string)

  type Row = map<Col, Val>

  datatype Target = Absent | Present(row: Row)

  datatype Outcome = Done(target: Target) | SqlError

  /** Primary-key columns, CONFLICT_COLUMN and ORIGIN_COLUMN, and the table's other columns
      in introspection order.  */
  datatype Schema = Schema(cols: seq<Col>, pk: set<Col>, version: Col, origin: Col) {
    predicate Valid() {
      && (forall i, j :: 0 <= i < j < |cols| ==> cols[i] != cols[j])
      && version in cols && origin in cols && version != origin
      && version !in pk && origin !in pk
    }
  }

  datatype Truth = True | False | Unknown

  function Lt(a: Val, b: Val): Truth {
    match (a, b)
    case (Num(m), Num(n)) => if m < n then True else False
    case (Str(s), Str(t)) => if Text.Less(s, t) then True else False
    case (Null, _) => Unknown
    case (_, Null) => Unknown
    case _ => False
  }

  function Eq(a: Val, b: Val): Truth {
    if a.Null? || b.Null? then Unknown else if a == b then True else False
  }

  function And(p: Truth, q: Truth): Truth {
    if p.False? || q.False? then False else if p.True? && q.True? then True else Unknown
  }

  function Or(p: Truth, q: Truth): Truth {
    if p.True? || q.True? then True else if p.False? && q.False? then False else Unknown
  }

  function Get(r: Row, c: Col): Val {
    if c in r then r[c] else Null
  }

  /** `t.v < e.v OR (t.v = e.v AND t.o < e.o)` */
  function Guard(sc: Schema, t: Row, e: Row): Truth {
    Or(Lt(Get(t, sc.version), Get(e, sc.version)),
       And(Eq(Get(t, sc.version), Get(e, sc.version)), Lt(Get(t, sc.origin), Get(e, sc.origin))))
  }

  /** Columns of the event that the statement binds (presentCols). */
  function Bound(sc: Schema, e: Row): Row {
    map c | c in e && c in sc.cols :: e[c]
  }

  function Inserted(sc: Schema, e: Row): Row {
    map c | c in sc.cols :: Get(Bound(sc, e), c)
  }

  function NonKey(sc: Schema, e: Row): Row {
    map c | c in e && c in sc.cols && c !in sc.pk :: e[c]
  }

  function Overwrite(sc: Schema, t: Row, e: Row): Row {
    t + NonKey(sc, e)
  }

  function PostgresUpsert(sc: Schema, t: Target, e: Row): Outcome {
    if Bound(sc, e) == map[] then SqlError
    else match t
      case Absent => Done(Present(Inserted(sc, e)))
      case Present(r) =>
        if NonKey(sc, e) != map[] && Guard(sc, r, Bound(sc, e)).True? then Done(Present(Overwrite(sc, r, e)))
        else Done(t)
  }

  /** The guard names `s.version` and `s.origin`: a statement whose source lacks them does
      not compile. */
  function SqlServerMerge(sc: Schema, t: Target, e: Row): Outcome {
    if Bound(sc, e) == map[] then SqlError
    else if NonKey(sc, e) != map[] && (sc.version !in Bound(sc, e) || sc.origin !in Bound(sc, e)) then SqlError
    else match t
      case Absent => Done(Present(Inserted(sc, e)))
      case Present(r) =>
        var s := Bound(sc, e);
        var newer := Or(Lt(Get(r, sc.version), Get(s, sc.version)),
                        And(Eq(Get(s, sc.version), Get(r, sc.version)), Lt(Get(r, sc.origin), Get(s, sc.origin))));
        if NonKey(sc, e) != map[] && newer.True? then Done(Present(Overwrite(sc, r, e))) else Done(t)
  }

  function InsertOrNoop(sc: Schema, t: Target, e: Row): Target {
    if t.Absent? then Present(Inserted(sc, e)) else t
  }

  /** The second MySQL statement's extra WHERE conjunct, as it is assembled: both columns if
      the event carries them, the version alone without an origin, nothing without a version. */
  function MysqlGuard(sc: Schema, t: Row, e: Row): Truth {
    if sc.version !in e then True
    else if sc.origin in e then Guard(sc, t, e)
    else Lt(Get(t, sc.version), e[sc.version])
  }

  function MysqlUpsert(sc: Schema, t: Target, e: Row): Outcome {
    if Bound(sc, e) == map[] then SqlError
    else
      var t1 := InsertOrNoop(sc, t, e);
      if NonKey(sc, e) != map[] && MysqlGuard(sc, t1.row, Bound(sc, e)).True?
      then Done(Present(Overwrite(sc, t1.row, e)))
      else Done(t1)
  }

  /** The guard means what the mesh means by newer: version first, origin as tiebreak. */
  lemma GuardIsNewer(sc: Schema, t: Row, e: Row, v: int, o: string, v': int, o': string)
    requires Get(t, sc.version) == Num(v) && Get(t, sc.origin) == Str(o)
    requires Get(e, sc.version) == Num(v') && Get(e, sc.origin) == Str(o')
    ensures Guard(sc, t, e).True? <==> v < v' || (v == v' && Text.Less(o, o'))
  {
  }

  lemma OverwriteInserted(sc: Schema, e: Row)
    ensures Overwrite(sc, Inserted(sc, e), e) == Inserted(sc, e)
  {
  }

  /** SQL's connectives and comparisons, Unknown wherever a null decides. */
  lemma ThreeValued(p: Truth, q: Truth, a: Val, b: Val)
    ensures And(p, q) == True <==> p == True && q == True
    ensures And(p, q) == False <==> p == False || q == False
    ensures Or(p, q) == True <==> p == True || q == True
    ensures Or(p, q) == False <==> p == False && q == False
    ensures Eq(a, b) == Unknown <==> a == Null || b == Null
    ensures Eq(a, b) == True <==> a == b && a != Null
    ensures Lt(a, b) == Unknown <==> a == Null || b == Null
  {
  }

  /** The columns after an upsert, one by one: a new row has the event's values and nulls elsewhere; a row
      that the event is newer than takes every value the event carries, key columns apart; any other row
      stays as it was. */
  lemma UpsertByColumn(sc: Schema, t: Target, e: Row, v': int, o': string)
    requires sc.Valid() && sc.version in e && e[sc.version] == Num(v') && sc.origin in e && e[sc.origin] == Str(o')
    ensures PostgresUpsert(sc, t, e).Done? && PostgresUpsert(sc, t, e).target.Present?
    ensures var r := PostgresUpsert(sc, t, e).target.row;
      && (t.Absent? ==> forall c :: c in sc.cols ==> c in r && r[c] == if c in e then e[c] else Null)
      && (t.Absent? ==> forall c :: c in r ==> c in sc.cols)
      && (forall v, o :: t.Present? && Get(t.row, sc.version) == Num(v) && Get(t.row, sc.origin) == Str(o) ==>
            if v < v' || (v == v' && Text.Less(o, o')) then
              && (forall c :: c in sc.cols && c in e && c !in sc.pk ==> c in r && r[c] == e[c])
              && (forall c :: !(c in sc.cols && c in e && c !in sc.pk) ==> Get(r, c) == Get(t.row, c))
            else r == t.row)
  {
    assert sc.version in Bound(sc, e) && sc.version in NonKey(sc, e);
    assert forall c :: c in sc.cols && c in e && c !in sc.pk ==> c in NonKey(sc, e);
    if t.Present? && Get(t.row, sc.version).Num? && Get(t.row, sc.origin).Str? {
      GuardIsNewer(sc, t.row, Bound(sc, e), Get(t.row, sc.version).n, Get(t.row, sc.origin).s, v', o');
    }
  }

  /** SQL Server refuses exactly an event that carries nothing, or something to update without both the
      columns its guard names. */
  lemma SqlServerRefusesIff(sc: Schema, t: Target, e: Row)
    ensures SqlServerMerge(sc, t, e) == SqlError <==>
      || (forall c :: c in e ==> c !in sc.cols)
      || ((exists c :: c in e && c in sc.cols && c !in sc.pk)
          && !(sc.version in e && sc.version in sc.cols && sc.origin in e && sc.origin in sc.cols))
  {
    assert (exists c :: c in e && c in sc.cols) <==> Bound(sc, e) != map[] by {
      if c :| c in e && c in sc.cols {
        assert c in Bound(sc, e);
      }
    }
    assert (exists c :: c in e && c in sc.cols && c !in sc.pk) <==> NonKey(sc, e) != map[] by {
      if c :| c in e && c in sc.cols && c !in sc.pk {
        assert c in NonKey(sc, e);
      }
    }
  }

  /** Dialect agreement: an event that carries version and origin leaves the same row on all
      three engines, whatever the target holds (nothing, an older, equal, newer or
      null-versioned row) and whatever subset of the other columns it carries. */
  lemma DialectsAgree(sc: Schema, t: Target, e: Row)
    requires sc.Valid() && sc.version in e && sc.origin in e
    ensures PostgresUpsert(sc, t, e) == SqlServerMerge(sc, t, e) == MysqlUpsert(sc, t, e)
    ensures PostgresUpsert(sc, t, e).Done?
  {
    assert sc.version in Bound(sc, e) && sc.version in NonKey(sc, e);
    if t.Absent? {
      OverwriteInserted(sc, e);
    }
  }

  /** Exactly when MySQL and Postgres agree on every target row: when the event carries the
      version, or has no column to update.  (Without a version MySQL updates unconditionally,
      while Postgres compares with a null and leaves the row alone.) */
  lemma MysqlAgreesIff(sc: Schema, e: Row)
    requires sc.Valid()
    ensures (forall t: Target :: MysqlUpsert(sc, t, e) == PostgresUpsert(sc, t, e)) <==>
            (sc.version in e || NonKey(sc, e) == map[])
  {
    if sc.version in e || NonKey(sc, e) == map[] {
      forall t: Target
        ensures MysqlUpsert(sc, t, e) == PostgresUpsert(sc, t, e)
      {
        OverwriteInserted(sc, e);
      }
    } else {
      var c :| c in NonKey(sc, e);
      assert c in Bound(sc, e);
      var v := if e[c] == Null then Num(0) else Null;
      var t := Present(map[c := v]);
      assert Overwrite(sc, t.row, e)[c] != v;
      assert MysqlUpsert(sc, t, e) != PostgresUpsert(sc, t, e);
    }
  }

  // ---------------------------------------------------------------- ON DUPLICATE KEY UPDATE

  /** Per-column assignments run left to right, each guard seeing the columns already
      assigned. */
  function OnDuplicateKey(sc: Schema, t: Row, e: Row, cols: seq<Col>): Row
    requires forall c :: c in cols ==> c in e
    decreases |cols|
  {
    if cols == [] then t
    else
      var c := cols[0];
      var t' := if c !in sc.pk && Guard(sc, t, e).True? then t[c := e[c]] else t;
      OnDuplicateKey(sc, t', e, cols[1..])
  }

  lemma {:induction false} DuplicateKeyConcat(sc: Schema, t: Row, e: Row, a: seq<Col>, b: seq<Col>)
    requires forall c :: c in a + b ==> c in e
    ensures forall c :: c in a ==> c in e
    ensures forall c :: c in b ==> c in e
    ensures OnDuplicateKey(sc, t, e, a + b) == OnDuplicateKey(sc, OnDuplicateKey(sc, t, e, a), e, b)
    decreases |a|
  {
    assert forall c :: c in a ==> c in a + b;
    assert forall c :: c in b ==> c in a + b;
    if a == [] {
      assert a + b == b;
    } else {
      var c := a[0];
      var t' := if c !in sc.pk && Guard(sc, t, e).True? then t[c := e[c]] else t;
      assert (a + b)[0] == c && (a + b)[1..] == a[1..] + b;
      DuplicateKeyConcat(sc, t', e, a[1..], b);
    }
  }

  /** Columns other than the two the guard reads leave the guard alone, so they are all
      assigned or all left. */
  lemma {:induction false} DataColumns(sc: Schema, t: Row, e: Row, cols: seq<Col>)
    requires forall c :: c in cols ==> c in e && c != sc.version && c != sc.origin
    ensures var r := OnDuplicateKey(sc, t, e, cols);
            && Get(r, sc.version) == Get(t, sc.version) && Get(r, sc.origin) == Get(t, sc.origin)
            && (!Guard(sc, t, e).True? ==> r == t)
            && (forall c :: c in cols && c !in sc.pk && Guard(sc, t, e).True? ==> Get(r, c) == e[c])
            && (forall c :: c !in cols ==> Get(r, c) == Get(t, c))
    decreases |cols|
  {
    if cols != [] {
      var c := cols[0];
      var t' := if c !in sc.pk && Guard(sc, t, e).True? then t[c := e[c]] else t;
      DataColumns(sc, t', e, cols[1..]);
      assert forall c' :: c' in cols <==> c' == c || c' in cols[1..];
      assert Guard(sc, t', e) == Guard(sc, t, e);
    }
  }

  /** Why MySQL needs two statements.  With the version assigned before the origin, an event
      that is newer by version always writes its version, but its origin only if that also
      sorts later (or was the same): otherwise the row ends with the new version under the
      old origin.  And every column assigned after both keeps its old value. */
  lemma OnDuplicateKeySplits(sc: Schema, t: Row, e: Row, pre: seq<Col>, mid: seq<Col>, post: seq<Col>)
    requires sc.Valid() && Guard(sc, t, e).True? && sc.version in e && sc.origin in e
    requires forall c :: c in pre + mid + post ==> c in e && c != sc.version && c != sc.origin
    requires forall c :: c in post ==> c !in pre && c !in mid
    ensures forall c :: c in pre + [sc.version] + mid + [sc.origin] + post ==> c in e
    ensures var r := OnDuplicateKey(sc, t, e, pre + [sc.version] + mid + [sc.origin] + post);
            && Get(r, sc.version) == e[sc.version]
            && Get(r, sc.origin) == (if Lt(Get(t, sc.origin), e[sc.origin]).True? then e[sc.origin] else Get(t, sc.origin))
            && (forall c :: c in post ==> Get(r, c) == Get(t, c))
  {
    var v, o := [sc.version], [sc.origin];
    forall c | c in pre + v + mid + o + post
      ensures c in e
    {
      assert c in pre + mid + post || c == sc.version || c == sc.origin;
    }
    assert forall c :: c in pre || c in mid || c in post ==> c in pre + mid + post;
    assert pre + v + mid + o + post == pre + (v + (mid + (o + post)));
    DuplicateKeyConcat(sc, t, e, pre, v + (mid + (o + post)));
    var t1 := OnDuplicateKey(sc, t, e, pre);
    DataColumns(sc, t, e, pre);
    DuplicateKeyConcat(sc, t1, e, v, mid + (o + post));
    var t2 := OnDuplicateKey(sc, t1, e, v);
    assert t2 == t1[sc.version := e[sc.version]] by {
      assert v[1..] == [] && Guard(sc, t1, e) == Guard(sc, t, e);
    }
    DuplicateKeyConcat(sc, t2, e, mid, o + post);
    DataColumns(sc, t2, e, mid);
    var t3 := OnDuplicateKey(sc, t2, e, mid);
    DuplicateKeyConcat(sc, t3, e, o, post);
    var t4 := OnDuplicateKey(sc, t3, e, o);
    assert t4 == if Guard(sc, t3, e).True? then t3[sc.origin := e[sc.origin]] else t3 by {
      assert o[1..] == [];
    }
    Irreflexive(e[sc.version]);
    Irreflexive(e[sc.origin]);
    DataColumns(sc, t4, e, post);
  }

  lemma Irreflexive(a: Val)
    ensures !Lt(a, a).True?
  {
    if a.Str? {
      Text.Total(a.s, a.s);
    }
  }
}
