/** The database schema that the alembic revisions act on, the operations
    they use, and a database object that executes them one at a time. */
module Schema {
  import opened Common

  datatype SqlType = BigInteger | String | Boolean | Integer

  /** A server-side default: `sa.sql.false()` or a literal text. */
  datatype ServerDefault = SqlFalse | Literal(text: string)

  datatype Column = Column(sqlType: SqlType, nullable: bool, autoincrement: bool, serverDefault: Option<ServerDefault>)

  /** A table: its columns by name and the column of its primary key. */
  datatype Table = Table(columns: map<string, Column>, primaryKey: string)

  /** The tables by name, and the indexes by name with the table each is on. */
  datatype Schema = Schema(tables: map<string, Table>, indexes: map<string, string>)

  const Empty := Schema(map[], map[])

  /** The primary key of every table is one of its columns, and every index
      is on an existing table. */
  predicate WellFormed(s: Schema) {
    && (forall t :: t in s.tables ==> s.tables[t].primaryKey in s.tables[t].columns)
    && (forall i :: i in s.indexes ==> s.indexes[i] in s.tables)
  }

  /** The operations the revisions use. `RenameIndex` is the
      `ALTER INDEX ... RENAME TO ...` statement a revision executes. */
  datatype Op =
    | CreateTable(table: string, columns: map<string, Column>, primaryKey: string)
    | DropTable(table: string)
    | AddColumn(table: string, column: string, spec: Column)
    | DropColumn(table: string, column: string)
    | AlterColumnName(table: string, column: string, newName: string)
    | RenameTable(table: string, newName: string)
    | RenameIndex(index: string, newName: string)

  /** The name PostgreSQL gives the index of a table's primary key. */
  function PkeyIndex(table: string): string { table + "_pkey" }

  /** The map with the entry of `k` moved to `k2`. */
  function MoveKey<V>(m: map<string, V>, k: string, k2: string): map<string, V>
    requires k in m
  {
    (m - {k})[k2 := m[k]]
  }

  /** The indexes with those on table `t` moved to table `t2`. */
  function Retarget(indexes: map<string, string>, t: string, t2: string): map<string, string> {
    map i | i in indexes :: if indexes[i] == t then t2 else indexes[i]
  }

  /** One operation; `None` is the SQL error of an operation on a missing
      table, column or index, or of a name already taken. */
  function Apply(s: Schema, op: Op): Option<Schema> {
    match op
    case CreateTable(t, cols, pk) =>
      if t in s.tables || PkeyIndex(t) in s.indexes || pk !in cols then None
      else Some(Schema(s.tables[t := Table(cols, pk)], s.indexes[PkeyIndex(t) := t]))
    case DropTable(t) =>
      if t !in s.tables then None
      else Some(Schema(s.tables - {t}, map i | i in s.indexes && s.indexes[i] != t :: s.indexes[i]))
    case AddColumn(t, c, col) =>
      if t !in s.tables || c in s.tables[t].columns then None
      else Some(Schema(s.tables[t := s.tables[t].(columns := s.tables[t].columns[c := col])], s.indexes))
    case DropColumn(t, c) =>
      if t !in s.tables || c !in s.tables[t].columns || c == s.tables[t].primaryKey then None
      else Some(Schema(s.tables[t := s.tables[t].(columns := s.tables[t].columns - {c})], s.indexes))
    case AlterColumnName(t, c, n) =>
      if t !in s.tables || c !in s.tables[t].columns || n in s.tables[t].columns then None
      else
        var tb := s.tables[t];
        var renamed := Table(MoveKey(tb.columns, c, n), if tb.primaryKey == c then n else tb.primaryKey);
        Some(Schema(s.tables[t := renamed], s.indexes))
    case RenameTable(t, n) =>
      if t !in s.tables || n in s.tables then None
      else
        Some(Schema(MoveKey(s.tables, t, n), Retarget(s.indexes, t, n)))
    case RenameIndex(i, n) =>
      if i !in s.indexes || n in s.indexes then None
      else Some(Schema(s.tables, MoveKey(s.indexes, i, n)))
  }

  /** Every operation keeps the schema well formed. */
  lemma ApplyWellFormed(s: Schema, op: Op)
    requires WellFormed(s) && Apply(s, op).Some?
    ensures WellFormed(Apply(s, op).value)
  {
    var r := Apply(s, op).value;
    match op {
      case RenameTable(t, n) =>
        forall i | i in r.indexes ensures r.indexes[i] in r.tables {
          assert i in s.indexes;
        }
      case AlterColumnName(t, c, n) =>
        assert r.tables[t].primaryKey in r.tables[t].columns;
      case _ =>
    }
  }

  /** Runs operations in order; the first that fails stops the run. */
  function Run(s: Schema, ops: seq<Op>): Option<Schema>
    decreases |ops|
  {
    if ops == [] then Some(s)
    else match Apply(s, ops[0])
      case None => None
      case Some(s') => Run(s', ops[1..])
  }

  /** Running `a + b` is running `a`, then `b` on what `a` left. */
  lemma {:induction false} RunAppend(s: Schema, a: seq<Op>, b: seq<Op>)
    ensures Run(s, a + b) == if Run(s, a).None? then None else Run(Run(s, a).value, b)
    decreases |a|
  {
    if a == [] {
      assert a + b == b;
    } else {
      assert (a + b)[0] == a[0] && (a + b)[1..] == a[1..] + b;
      if Apply(s, a[0]).Some? {
        RunAppend(Apply(s, a[0]).value, a[1..], b);
      }
    }
  }

  /** A run keeps the schema well formed. */
  lemma {:induction false} RunWellFormed(s: Schema, ops: seq<Op>)
    requires WellFormed(s) && Run(s, ops).Some?
    ensures WellFormed(Run(s, ops).value)
    decreases |ops|
  {
    if ops != [] {
      ApplyWellFormed(s, ops[0]);
      RunWellFormed(Apply(s, ops[0]).value, ops[1..]);
    }
  }

  /** A run of one operation is that operation. */
  lemma RunOne(s: Schema, op: Op)
    ensures Run(s, [op]) == Apply(s, op)
  {
    assert [op][1..] == [];
  }

  /** A run of two operations. */
  lemma RunTwo(s: Schema, a: Op, b: Op)
    ensures Run(s, [a, b]) == if Apply(s, a).None? then None else Apply(Apply(s, a).value, b)
  {
    assert [a, b][1..] == [b];
    if Apply(s, a).Some? {
      RunOne(Apply(s, a).value, b);
    }
  }

  // ---------------------------------------------------------------------------
  // Each operation and the one that undoes it

  lemma CreateDrop(s: Schema, t: string, cols: map<string, Column>, pk: string)
    requires WellFormed(s) && Apply(s, CreateTable(t, cols, pk)).Some?
    ensures Apply(Apply(s, CreateTable(t, cols, pk)).value, DropTable(t)) == Some(s)
  {
    var r := Apply(s, CreateTable(t, cols, pk)).value;
    var back := Apply(r, DropTable(t)).value;
    assert back.tables == s.tables;
    assert forall i :: i in s.indexes ==> s.indexes[i] != t;
    assert back.indexes == s.indexes;
  }

  lemma AddDrop(s: Schema, t: string, c: string, col: Column)
    requires WellFormed(s) && Apply(s, AddColumn(t, c, col)).Some?
    ensures Apply(Apply(s, AddColumn(t, c, col)).value, DropColumn(t, c)) == Some(s)
  {
    var tb := s.tables[t];
    var r := Apply(s, AddColumn(t, c, col)).value;
    assert c != tb.primaryKey;
    assert r.tables[t].columns - {c} == tb.columns;
    assert r.tables[t].(columns := tb.columns) == tb;
    assert r.tables[t := tb] == s.tables;
  }

  lemma RenameColumnBack(s: Schema, t: string, c: string, n: string)
    requires WellFormed(s) && Apply(s, AlterColumnName(t, c, n)).Some?
    ensures Apply(Apply(s, AlterColumnName(t, c, n)).value, AlterColumnName(t, n, c)) == Some(s)
  {
    var tb := s.tables[t];
    var cols := (tb.columns - {c})[n := tb.columns[c]];
    var r := Apply(s, AlterColumnName(t, c, n)).value;
    assert c != n && r.tables[t].columns == cols;
    assert (cols - {n})[c := cols[n]] == tb.columns;
    assert (if r.tables[t].primaryKey == n then c else r.tables[t].primaryKey) == tb.primaryKey;
    assert r.tables[t := tb] == s.tables;
  }

  lemma RenameTableBack(s: Schema, t: string, n: string)
    requires WellFormed(s) && Apply(s, RenameTable(t, n)).Some?
    ensures Apply(Apply(s, RenameTable(t, n)).value, RenameTable(n, t)) == Some(s)
  {
    var r := Apply(s, RenameTable(t, n)).value;
    var back := Apply(r, RenameTable(n, t)).value;
    assert ((s.tables - {t})[n := s.tables[t]] - {n})[t := s.tables[t]] == s.tables;
    assert forall i :: i in s.indexes ==> s.indexes[i] != n;
    assert back.indexes == s.indexes;
  }

  lemma RenameIndexBack(s: Schema, i: string, n: string)
    requires Apply(s, RenameIndex(i, n)).Some?
    ensures Apply(Apply(s, RenameIndex(i, n)).value, RenameIndex(n, i)) == Some(s)
  {
    assert ((s.indexes - {i})[n := s.indexes[i]] - {n})[i := s.indexes[i]] == s.indexes;
  }

  /** The columns after renaming `a` to `a2` and then `b` to `b2`. */
  function RenamedTwice(cols: map<string, Column>, a: string, a2: string, b: string, b2: string): map<string, Column>
    requires a in cols && b in cols && a != b
  {
    assert b in MoveKey(cols, a, a2);
    MoveKey(MoveKey(cols, a, a2), b, b2)
  }

  /** The table after the two renames; the key follows its column. */
  function RenamedTableTwice(tb: Table, a: string, a2: string, b: string, b2: string): Table
    requires a in tb.columns && b in tb.columns && a != b
  {
    Table(RenamedTwice(tb.columns, a, a2, b, b2),
          if tb.primaryKey == a then a2 else if tb.primaryKey == b then b2 else tb.primaryKey)
  }

  /** Two column renames on one table, with four distinct names, succeed
      exactly when both old names are present and both new names free, and
      then change only that table's columns. */
  lemma RenameTwoColumns(s: Schema, t: string, a: string, a2: string, b: string, b2: string)
    requires a != a2 && a != b && a != b2 && a2 != b && a2 != b2 && b != b2
    ensures Run(s, [AlterColumnName(t, a, a2), AlterColumnName(t, b, b2)]).Some? <==>
              t in s.tables && a in s.tables[t].columns && b in s.tables[t].columns
              && a2 !in s.tables[t].columns && b2 !in s.tables[t].columns
    ensures Run(s, [AlterColumnName(t, a, a2), AlterColumnName(t, b, b2)]).Some? ==>
              && t in s.tables && a in s.tables[t].columns && b in s.tables[t].columns
              && Run(s, [AlterColumnName(t, a, a2), AlterColumnName(t, b, b2)])
                   == Some(Schema(s.tables[t := RenamedTableTwice(s.tables[t], a, a2, b, b2)], s.indexes))
  {
    RunTwo(s, AlterColumnName(t, a, a2), AlterColumnName(t, b, b2));
    if t in s.tables && a in s.tables[t].columns && a2 !in s.tables[t].columns {
      var tb := s.tables[t];
      var s1 := Apply(s, AlterColumnName(t, a, a2)).value;
      var t1 := Table((tb.columns - {a})[a2 := tb.columns[a]], if tb.primaryKey == a then a2 else tb.primaryKey);
      assert s1 == Schema(s.tables[t := t1], s.indexes);
      if b in t1.columns && b2 !in t1.columns {
        var t2 := Table((t1.columns - {b})[b2 := t1.columns[b]], if t1.primaryKey == b then b2 else t1.primaryKey);
        assert Apply(s1, AlterColumnName(t, b, b2)) == Some(Schema(s1.tables[t := t2], s.indexes));
        assert s1.tables[t := t2] == s.tables[t := t2];
        assert t1.columns[b] == tb.columns[b];
        assert t2 == RenamedTableTwice(tb, a, a2, b, b2);
      }
    }
  }

  /** What two renames with four distinct names do to a column map: the two
      attributes move, every other column stays, and the count is kept. */
  lemma RenamedTwiceKeeps(cols: map<string, Column>, a: string, a2: string, b: string, b2: string)
    requires a != a2 && a != b && a != b2 && a2 != b && a2 != b2 && b != b2
    requires a in cols && b in cols && a2 !in cols && b2 !in cols
    ensures var cols' := RenamedTwice(cols, a, a2, b, b2);
            && cols'.Keys == cols.Keys - {a, b} + {a2, b2}
            && |cols'| == |cols|
            && cols'[a2] == cols[a] && cols'[b2] == cols[b]
            && (forall c :: c in cols && c != a && c != b ==> c in cols' && cols'[c] == cols[c])
  {
    var cols' := RenamedTwice(cols, a, a2, b, b2);
    assert cols'.Keys == cols.Keys - {a, b} + {a2, b2};
    SwapSize(cols.Keys, a, b, a2, b2);
  }

  /** Renaming back, in the same order, restores the table. */
  lemma RenamedTableTwiceBack(tb: Table, a: string, a2: string, b: string, b2: string)
    requires a != a2 && a != b && a != b2 && a2 != b && a2 != b2 && b != b2
    requires a in tb.columns && b in tb.columns && a2 !in tb.columns && b2 !in tb.columns
    requires tb.primaryKey in tb.columns
    ensures var t1 := RenamedTableTwice(tb, a, a2, b, b2);
            && a2 in t1.columns && b2 in t1.columns && a !in t1.columns && b !in t1.columns
            && RenamedTableTwice(t1, a2, a, b2, b) == tb
  {
    var t1 := RenamedTableTwice(tb, a, a2, b, b2);
    assert RenamedTwice(t1.columns, a2, a, b2, b) == tb.columns;
  }

  /** The two reverse renames, in the same order, undo the two renames. */
  lemma RenameTwoColumnsBack(s: Schema, t: string, a: string, a2: string, b: string, b2: string)
    requires a != a2 && a != b && a != b2 && a2 != b && a2 != b2 && b != b2
    requires Run(s, [AlterColumnName(t, a, a2), AlterColumnName(t, b, b2)]).Some?
    requires t in s.tables && s.tables[t].primaryKey in s.tables[t].columns
    ensures Run(Run(s, [AlterColumnName(t, a, a2), AlterColumnName(t, b, b2)]).value,
                [AlterColumnName(t, a2, a), AlterColumnName(t, b2, b)]) == Some(s)
  {
    RenameTwoColumns(s, t, a, a2, b, b2);
    var tb := s.tables[t];
    var t1 := RenamedTableTwice(tb, a, a2, b, b2);
    var r := Schema(s.tables[t := t1], s.indexes);
    RenamedTableTwiceBack(tb, a, a2, b, b2);
    RenameTwoColumns(r, t, a2, a, b2, b);
    assert r.tables[t] == t1;
    assert r.tables[t := tb] == s.tables[t := tb] == s.tables;
  }

  /** Swapping two present elements for two absent ones keeps the count. */
  lemma SwapSize<T>(keys: set<T>, a: T, b: T, a2: T, b2: T)
    requires a in keys && b in keys && a2 !in keys && b2 !in keys && a != b && a2 != b2
    ensures |keys - {a, b} + {a2, b2}| == |keys|
  {
    var rest := keys - {a, b};
    assert keys == rest + {a, b};
    assert rest !! {a, b} && rest !! {a2, b2};
    assert |{a, b}| == 2 == |{a2, b2}|;
  }

  /** Moving a key changes only the key: the value goes along, every other
      entry stays. */
  lemma MoveKeyFacts<V>(m: map<string, V>, k: string, k2: string)
    requires k in m
    ensures MoveKey(m, k, k2).Keys == m.Keys - {k} + {k2}
    ensures MoveKey(m, k, k2)[k2] == m[k]
    ensures forall u :: u in m && u != k && u != k2 ==> MoveKey(m, k, k2)[u] == m[u]
  {
  }

  /** Moving a key to a free name and back restores the map. */
  lemma MoveKeyBack<V>(m: map<string, V>, k: string, k2: string)
    requires k in m && k2 !in m
    ensures k2 in MoveKey(m, k, k2) && k !in MoveKey(m, k, k2) && MoveKey(MoveKey(m, k, k2), k2, k) == m
  {
  }

  /** Moving the indexes of a table and back restores them, when none was on
      the new name. */
  lemma RetargetBack(indexes: map<string, string>, t: string, t2: string)
    requires forall i :: i in indexes ==> indexes[i] != t2
    ensures Retarget(Retarget(indexes, t, t2), t2, t) == indexes
  {
  }

  /** Renaming an index and moving the indexes of a table commute. */
  lemma RetargetMoveKey(indexes: map<string, string>, i: string, i2: string, t: string, t2: string)
    requires i in indexes
    ensures Retarget(MoveKey(indexes, i, i2), t, t2) == MoveKey(Retarget(indexes, t, t2), i, i2)
  {
  }

  /** Renaming a table and then an index succeeds exactly when both old
      names are present and both new names free. */
  lemma RenameTableAndIndex(s: Schema, t: string, t2: string, i: string, i2: string)
    ensures Run(s, [RenameTable(t, t2), RenameIndex(i, i2)]).Some? <==>
              t in s.tables && t2 !in s.tables && i in s.indexes && i2 !in s.indexes
    ensures Run(s, [RenameTable(t, t2), RenameIndex(i, i2)]).Some? ==>
              && t in s.tables && i in s.indexes
              && Run(s, [RenameTable(t, t2), RenameIndex(i, i2)])
                   == Some(Schema(MoveKey(s.tables, t, t2), MoveKey(Retarget(s.indexes, t, t2), i, i2)))
  {
    RunTwo(s, RenameTable(t, t2), RenameIndex(i, i2));
  }

  /** The two reverse renames, in the same order, undo them. */
  lemma RenameTableAndIndexBack(s: Schema, t: string, t2: string, i: string, i2: string)
    requires WellFormed(s) && Run(s, [RenameTable(t, t2), RenameIndex(i, i2)]).Some?
    ensures Run(Run(s, [RenameTable(t, t2), RenameIndex(i, i2)]).value, [RenameTable(t2, t), RenameIndex(i2, i)]) == Some(s)
  {
    RenameTableAndIndex(s, t, t2, i, i2);
    var tables, indexes := MoveKey(s.tables, t, t2), MoveKey(Retarget(s.indexes, t, t2), i, i2);
    MoveKeyBack(s.tables, t, t2);
    RenameTableAndIndex(Schema(tables, indexes), t2, t, i2, i);
    assert forall j :: j in s.indexes ==> s.indexes[j] != t2;
    RetargetMoveKey(Retarget(s.indexes, t, t2), i, i2, t2, t);
    RetargetBack(s.indexes, t, t2);
    MoveKeyBack(s.indexes, i, i2);
  }

  // ---------------------------------------------------------------------------
  // The database

  /** What the database holds and whether the migration's transaction has
      failed; PostgreSQL ignores every statement after a failed one until
      the transaction ends. */
  datatype DbState = DbState(schema: Schema, failed: bool)

  function Exec(d: DbState, op: Op): DbState {
    if d.failed then d
    else match Apply(d.schema, op)
      case None => DbState(d.schema, true)
      case Some(s) => DbState(s, false)
  }

  function ExecAll(d: DbState, ops: seq<Op>): DbState
    decreases |ops|
  {
    if ops == [] then d else ExecAll(Exec(d, ops[0]), ops[1..])
  }

  /** Executing on the database is `Run`: it fails exactly when the run does,
      and otherwise holds what the run computes. */
  lemma {:induction false} ExecAllRun(s: Schema, ops: seq<Op>)
    ensures ExecAll(DbState(s, false), ops).failed <==> Run(s, ops).None?
    ensures Run(s, ops).Some? ==> ExecAll(DbState(s, false), ops).schema == Run(s, ops).value
    decreases |ops|
  {
    if ops != [] {
      match Apply(s, ops[0]) {
        case None => ExecAllFailed(DbState(s, true), ops[1..]);
        case Some(s') => ExecAllRun(s', ops[1..]);
      }
    }
  }

  /** Once failed, a transaction stays failed and unchanged. */
  lemma {:induction false} ExecAllFailed(d: DbState, ops: seq<Op>)
    requires d.failed
    ensures ExecAll(d, ops) == d
    decreases |ops|
  {
    if ops != [] {
      ExecAllFailed(Exec(d, ops[0]), ops[1..]);
    }
  }

  lemma {:induction false} ExecAllAppend(d: DbState, a: seq<Op>, b: seq<Op>)
    ensures ExecAll(d, a + b) == ExecAll(ExecAll(d, a), b)
    decreases |a|
  {
    if a == [] {
      assert a + b == b;
    } else {
      assert (a + b)[0] == a[0] && (a + b)[1..] == a[1..] + b;
      ExecAllAppend(Exec(d, a[0]), a[1..], b);
    }
  }

  lemma ExecOne(d: DbState, op: Op)
    ensures ExecAll(d, [op]) == Exec(d, op)
  {
    assert [op][1..] == [];
  }

  lemma ExecTwo(d: DbState, a: Op, b: Op)
    ensures ExecAll(d, [a, b]) == Exec(Exec(d, a), b)
  {
    assert [a, b][1..] == [b];
    ExecOne(Exec(d, a), b);
  }

  /** The database a migration runs against. */
  class Database {
    var tables: map<string, Table>
    var indexes: map<string, string>
    var failed: bool

    function Snapshot(): DbState
      reads this
    {
      DbState(Schema(tables, indexes), failed)
    }

    /** A fresh, empty database with no failed statement. */
    constructor ()
      ensures Snapshot() == DbState(Empty, false)
    {
      tables, indexes, failed := map[], map[], false;
    }

    /** One `op.*` call, or one executed SQL statement. */
    method Execute(op: Op)
      modifies this
      ensures Snapshot() == Exec(old(Snapshot()), op)
    {
      if !failed {
        var r := Apply(Schema(tables, indexes), op);
        if r.None? {
          failed := true;
        } else {
          tables, indexes := r.value.tables, r.value.indexes;
        }
      }
    }
  }
}
