/** The alembic revisions as one chain: their links, the schema after each
    upgrade from the empty database, and the head schema against the
    columns the `Chat` model declares. */
module Migrations {
  import opened Common
  import opened Schema
  import Models
  import CreateTableUser
  import AddIncludeLinkColumn
  import RenameColumns
  import RenameUserTableToChat
  import AddTypeColumn
  import RenameLastLinkToLastInfo
  import AddTwStyleColumn

  /** The revisions in chain order, with the revision each one revises. */
  const Revisions: seq<string> := [
    CreateTableUser.Revision, AddIncludeLinkColumn.Revision, RenameColumns.Revision,
    RenameUserTableToChat.Revision, AddTypeColumn.Revision, RenameLastLinkToLastInfo.Revision,
    AddTwStyleColumn.Revision]

  const DownRevisions: seq<Option<string>> := [
    CreateTableUser.DownRevision, AddIncludeLinkColumn.DownRevision, RenameColumns.DownRevision,
    RenameUserTableToChat.DownRevision, AddTypeColumn.DownRevision, RenameLastLinkToLastInfo.DownRevision,
    AddTwStyleColumn.DownRevision]

  /** One linear chain: the first revision is the root, every other one
      revises the one before it, and no revision revises the last one. */
  lemma ChainIsLinear()
    ensures |Revisions| == |DownRevisions| == 7
    ensures DownRevisions[0] == None
    ensures forall k :: 1 <= k < 7 ==> DownRevisions[k] == Some(Revisions[k - 1])
    ensures forall k :: 0 <= k < 7 ==> DownRevisions[k] != Some(Revisions[6])
  {
  }

  // ---------------------------------------------------------------------------
  // The schema after each upgrade

  const Columns1 := CreateTableUser.UserColumns
  const Columns2 := Columns1["include_link" := AddIncludeLinkColumn.IncludeLink]
  const Columns3 := RenamedTwice(Columns2, "full_name", "name", "nick_name", "chat_link")
  const Columns5 := Columns3["type" := AddTypeColumn.TypeColumn]
  const Columns6 := MoveKey(Columns5, "last_link", "last_info")
  const Columns7 := Columns6["tw_style" := AddTwStyleColumn.TwStyleColumn]

  const Schema1 := Schema(map["user" := Table(Columns1, "id")], map["user_pkey" := "user"])
  const Schema2 := Schema(map["user" := Table(Columns2, "id")], map["user_pkey" := "user"])
  const Schema3 := Schema(map["user" := Table(Columns3, "id")], map["user_pkey" := "user"])
  const Schema4 := Schema(map["chat" := Table(Columns3, "id")], map["chat_pkey" := "chat"])
  const Schema5 := Schema(map["chat" := Table(Columns5, "id")], map["chat_pkey" := "chat"])
  const Schema6 := Schema(map["chat" := Table(Columns6, "id")], map["chat_pkey" := "chat"])
  const Head := Schema(map["chat" := Table(Columns7, "id")], map["chat_pkey" := "chat"])

  /** Adding a free column to the only table of a schema. */
  lemma AddToSingle(t: string, cols: map<string, Column>, pk: string, idx: map<string, string>, c: string, col: Column)
    requires c !in cols
    ensures Run(Schema(map[t := Table(cols, pk)], idx), [AddColumn(t, c, col)])
              == Some(Schema(map[t := Table(cols[c := col], pk)], idx))
  {
    var s := Schema(map[t := Table(cols, pk)], idx);
    RunOne(s, AddColumn(t, c, col));
    assert s.tables[t := Table(cols[c := col], pk)] == map[t := Table(cols[c := col], pk)];
  }

  /** Renaming a column other than the key in the only table of a schema. */
  lemma RenameInSingle(t: string, cols: map<string, Column>, pk: string, idx: map<string, string>, c: string, n: string)
    requires c in cols && n !in cols && c != pk
    ensures Run(Schema(map[t := Table(cols, pk)], idx), [AlterColumnName(t, c, n)])
              == Some(Schema(map[t := Table(MoveKey(cols, c, n), pk)], idx))
  {
    var s := Schema(map[t := Table(cols, pk)], idx);
    RunOne(s, AlterColumnName(t, c, n));
    assert s.tables[t := Table(MoveKey(cols, c, n), pk)] == map[t := Table(MoveKey(cols, c, n), pk)];
  }

  /** Renaming two columns other than the key in the only table of a schema. */
  lemma RenameTwoInSingle(t: string, cols: map<string, Column>, pk: string, idx: map<string, string>,
                          a: string, a2: string, b: string, b2: string)
    requires a != a2 && a != b && a != b2 && a2 != b && a2 != b2 && b != b2
    requires a in cols && b in cols && a2 !in cols && b2 !in cols && pk != a && pk != b
    ensures Run(Schema(map[t := Table(cols, pk)], idx), [AlterColumnName(t, a, a2), AlterColumnName(t, b, b2)])
              == Some(Schema(map[t := Table(RenamedTwice(cols, a, a2, b, b2), pk)], idx))
  {
    var s := Schema(map[t := Table(cols, pk)], idx);
    RenameTwoColumns(s, t, a, a2, b, b2);
    assert RenamedTableTwice(Table(cols, pk), a, a2, b, b2) == Table(RenamedTwice(cols, a, a2, b, b2), pk);
    assert s.tables[t := Table(RenamedTwice(cols, a, a2, b, b2), pk)] == map[t := Table(RenamedTwice(cols, a, a2, b, b2), pk)];
  }

  lemma Step2()
    ensures Run(Schema1, AddIncludeLinkColumn.UpgradeOps) == Some(Schema2)
  {
    AddToSingle("user", Columns1, "id", Schema1.indexes, "include_link", AddIncludeLinkColumn.IncludeLink);
  }

  lemma Step3()
    ensures Run(Schema2, RenameColumns.UpgradeOps) == Some(Schema3)
  {
    assert "full_name" in Columns2 && "nick_name" in Columns2 && "name" !in Columns2 && "chat_link" !in Columns2;
    RenameTwoInSingle("user", Columns2, "id", Schema2.indexes, "full_name", "name", "nick_name", "chat_link");
  }

  lemma Step4()
    ensures Run(Schema3, RenameUserTableToChat.UpgradeOps) == Some(Schema4)
  {
    RenameTableAndIndex(Schema3, "user", "chat", "user_pkey", "chat_pkey");
    assert MoveKey(Schema3.tables, "user", "chat") == Schema4.tables;
    assert MoveKey(Retarget(Schema3.indexes, "user", "chat"), "user_pkey", "chat_pkey") == Schema4.indexes;
  }

  lemma Step5()
    ensures Run(Schema4, AddTypeColumn.UpgradeOps) == Some(Schema5)
  {
    assert "type" !in Columns3;
    AddToSingle("chat", Columns3, "id", Schema4.indexes, "type", AddTypeColumn.TypeColumn);
  }

  lemma Step6()
    ensures Run(Schema5, RenameLastLinkToLastInfo.UpgradeOps) == Some(Schema6)
  {
    assert "last_link" in Columns5 && "last_info" !in Columns5;
    RenameInSingle("chat", Columns5, "id", Schema5.indexes, "last_link", "last_info");
  }

  lemma Step7()
    ensures Run(Schema6, AddTwStyleColumn.UpgradeOps) == Some(Head)
  {
    Columns6Keys();
    AddToSingle("chat", Columns6, "id", Schema6.indexes, "tw_style", AddTwStyleColumn.TwStyleColumn);
  }

  /** Every upgrade, in chain order. */
  const UpgradeOps: seq<Op> :=
    CreateTableUser.UpgradeOps + AddIncludeLinkColumn.UpgradeOps + RenameColumns.UpgradeOps
    + RenameUserTableToChat.UpgradeOps + AddTypeColumn.UpgradeOps + RenameLastLinkToLastInfo.UpgradeOps
    + AddTwStyleColumn.UpgradeOps

  /** Every downgrade, from the head back to the root. */
  const DowngradeOps: seq<Op> :=
    AddTwStyleColumn.DowngradeOps + RenameLastLinkToLastInfo.DowngradeOps + AddTypeColumn.DowngradeOps
    + RenameUserTableToChat.DowngradeOps + RenameColumns.DowngradeOps + AddIncludeLinkColumn.DowngradeOps
    + CreateTableUser.DowngradeOps

  /** Upgrading the empty database to the head gives table "chat" keyed by
      `id` and its key index, and nothing else. */
  lemma UpgradeFromEmpty()
    ensures Run(Empty, UpgradeOps) == Some(Head)
  {
    var p1 := CreateTableUser.UpgradeOps;
    var p2 := p1 + AddIncludeLinkColumn.UpgradeOps;
    var p3 := p2 + RenameColumns.UpgradeOps;
    var p4 := p3 + RenameUserTableToChat.UpgradeOps;
    var p5 := p4 + AddTypeColumn.UpgradeOps;
    var p6 := p5 + RenameLastLinkToLastInfo.UpgradeOps;
    CreateTableUser.UpgradeFromEmpty();
    RunAppend(Empty, p1, AddIncludeLinkColumn.UpgradeOps);
    Step2();
    RunAppend(Empty, p2, RenameColumns.UpgradeOps);
    Step3();
    RunAppend(Empty, p3, RenameUserTableToChat.UpgradeOps);
    Step4();
    RunAppend(Empty, p4, AddTypeColumn.UpgradeOps);
    Step5();
    RunAppend(Empty, p5, RenameLastLinkToLastInfo.UpgradeOps);
    Step6();
    RunAppend(Empty, p6, AddTwStyleColumn.UpgradeOps);
    Step7();
  }

  /** The columns after the rename of `last_link`. */
  lemma Columns6Keys()
    ensures Columns6.Keys == {"id", "name", "chat_link", "last_info", "tw_orig", "tt_orig", "in_orig", "include_link", "type"}
  {
  }

  /** The columns after the rename of `last_link`, by name. */
  lemma Columns6Values()
    ensures Columns6["id"] == Column(BigInteger, false, false, None)
    ensures Columns6["type"] == Column(String, false, false, Some(Literal("private")))
    ensures Columns6["name"] == Column(String, true, false, None)
    ensures Columns6["chat_link"] == Column(String, true, false, None)
    ensures Columns6["last_info"] == Column(String, true, false, None)
    ensures Columns6["tw_orig"] == Column(Boolean, false, false, None)
    ensures Columns6["tt_orig"] == Column(Boolean, false, false, None)
    ensures Columns6["in_orig"] == Column(Boolean, false, false, None)
    ensures Columns6["include_link"] == Column(Boolean, false, false, Some(SqlFalse))
  {
    Columns6Keys();
    MoveKeyFacts(Columns5, "last_link", "last_info");
  }

  /** The head columns by name: what the upgrades left in each. */
  lemma HeadColumnValues()
    ensures Columns7.Keys == Models.ChatColumns.Keys
    ensures Columns7["id"] == Column(BigInteger, false, false, None)
    ensures Columns7["type"] == Column(String, false, false, Some(Literal("private")))
    ensures Columns7["name"] == Column(String, true, false, None)
    ensures Columns7["chat_link"] == Column(String, true, false, None)
    ensures Columns7["last_info"] == Column(String, true, false, None)
    ensures Columns7["tw_orig"] == Column(Boolean, false, false, None)
    ensures Columns7["tw_style"] == Column(Integer, false, false, Some(Literal("0")))
    ensures Columns7["tt_orig"] == Column(Boolean, false, false, None)
    ensures Columns7["in_orig"] == Column(Boolean, false, false, None)
    ensures Columns7["include_link"] == Column(Boolean, false, false, Some(SqlFalse))
  {
    Columns6Keys();
    Columns6Values();
  }

  /** The head columns as one map. */
  const HeadColumns: map<string, Column> := map[
    "id" := Column(BigInteger, false, false, None),
    "type" := Column(String, false, false, Some(Literal("private"))),
    "name" := Column(String, true, false, None),
    "chat_link" := Column(String, true, false, None),
    "last_info" := Column(String, true, false, None),
    "tw_orig" := Column(Boolean, false, false, None),
    "tw_style" := Column(Integer, false, false, Some(Literal("0"))),
    "tt_orig" := Column(Boolean, false, false, None),
    "in_orig" := Column(Boolean, false, false, None),
    "include_link" := Column(Boolean, false, false, Some(SqlFalse))
  ]

  /** The upgrades leave exactly these columns. */
  lemma HeadColumnsReached()
    ensures Columns7 == HeadColumns
  {
    HeadColumnValues();
  }

  /** The head column names are the model's. */
  lemma HeadColumnKeys()
    ensures HeadColumns.Keys == Models.ChatColumns.Keys
  {
  }

  /** The head columns against the model's, one by one. */
  lemma HeadColumnsMatchChat()
    ensures forall c :: c in HeadColumns ==> c in Models.ChatColumns && HeadColumns[c].(serverDefault := None) == Models.ChatColumns[c]
  {
  }

  /** The head schema has exactly the columns of `Chat`, each with the type,
      nullability and autoincrement the model declares, and the same key;
      only the server defaults are the migrations' own. */
  lemma HeadMatchesChat()
    ensures Head.tables.Keys == {Models.ChatTableName}
    ensures Head.tables[Models.ChatTableName] == Table(Columns7, Models.ChatPrimaryKey)
    ensures Columns7.Keys == Models.ChatColumns.Keys
    ensures forall c :: c in Columns7 ==> Columns7[c].(serverDefault := None) == Models.ChatColumns[c]
  {
    HeadColumnsReached();
    HeadColumnKeys();
    HeadColumnsMatchChat();
  }

  /** The server default of `tw_style` is the text of the model's default 0;
      `include_link` defaults to false on the server. */
  lemma HeadDefaults()
    ensures Columns7["tw_style"].serverDefault == Some(Literal(NatToString(Models.DefaultTwStyle)))
    ensures Columns7["include_link"].serverDefault == Some(SqlFalse)
    ensures Columns7["type"].serverDefault == Some(Literal("private"))
  {
    assert NatToString(0) == [DigitChar(0)] == "0";
    HeadColumnsReached();
  }

  /** Every intermediate schema is well formed. */
  lemma SchemasWellFormed()
    ensures WellFormed(Schema1) && WellFormed(Schema2) && WellFormed(Schema3) && WellFormed(Schema4)
    ensures WellFormed(Schema5) && WellFormed(Schema6) && WellFormed(Head)
  {
    CreateTableUser.UpgradeFromEmpty();
    RunWellFormed(Empty, CreateTableUser.UpgradeOps);
    Step2();
    RunWellFormed(Schema1, AddIncludeLinkColumn.UpgradeOps);
    Step3();
    RunWellFormed(Schema2, RenameColumns.UpgradeOps);
    Step4();
    RunWellFormed(Schema3, RenameUserTableToChat.UpgradeOps);
    Step5();
    RunWellFormed(Schema4, AddTypeColumn.UpgradeOps);
    Step6();
    RunWellFormed(Schema5, RenameLastLinkToLastInfo.UpgradeOps);
    Step7();
    RunWellFormed(Schema6, AddTwStyleColumn.UpgradeOps);
  }

  /** Downgrading the head all the way gives the empty database back. */
  lemma DowngradeToEmpty()
    ensures Run(Head, DowngradeOps) == Some(Empty)
  {
    SchemasWellFormed();
    var q1 := AddTwStyleColumn.DowngradeOps;
    var q2 := q1 + RenameLastLinkToLastInfo.DowngradeOps;
    var q3 := q2 + AddTypeColumn.DowngradeOps;
    var q4 := q3 + RenameUserTableToChat.DowngradeOps;
    var q5 := q4 + RenameColumns.DowngradeOps;
    var q6 := q5 + AddIncludeLinkColumn.DowngradeOps;
    Step7();
    AddTwStyleColumn.RoundTrip(Schema6);
    RunAppend(Head, q1, RenameLastLinkToLastInfo.DowngradeOps);
    Step6();
    RenameLastLinkToLastInfo.RoundTrip(Schema5);
    RunAppend(Head, q2, AddTypeColumn.DowngradeOps);
    Step5();
    AddTypeColumn.RoundTrip(Schema4);
    RunAppend(Head, q3, RenameUserTableToChat.DowngradeOps);
    Step4();
    RenameUserTableToChat.RoundTrip(Schema3);
    RunAppend(Head, q4, RenameColumns.DowngradeOps);
    Step3();
    RenameColumns.RoundTrip(Schema2);
    RunAppend(Head, q5, AddIncludeLinkColumn.DowngradeOps);
    Step2();
    AddIncludeLinkColumn.RoundTrip(Schema1);
    RunAppend(Head, q6, CreateTableUser.DowngradeOps);
    CreateTableUser.UpgradeFromEmpty();
    CreateTableUser.RoundTrip(Empty);
  }

  /** `alembic upgrade head` on a fresh database reaches the head schema
      without a failed statement, and `alembic downgrade base` after it
      empties the database again. */
  lemma FreshDatabaseReachesHead()
    ensures ExecAll(DbState(Empty, false), UpgradeOps) == DbState(Head, false)
    ensures ExecAll(DbState(Head, false), DowngradeOps) == DbState(Empty, false)
  {
    UpgradeFromEmpty();
    ExecAllRun(Empty, UpgradeOps);
    DowngradeToEmpty();
    ExecAllRun(Head, DowngradeOps);
  }

  /** `alembic upgrade head`: every revision's upgrade, in chain order. */
  method UpgradeToHead(db: Database)
    modifies db
    ensures db.Snapshot() == ExecAll(old(db.Snapshot()), UpgradeOps)
  {
    var d0 := db.Snapshot();
    CreateTableUser.Upgrade(db);
    AddIncludeLinkColumn.Upgrade(db);
    ExecAllAppend(d0, CreateTableUser.UpgradeOps, AddIncludeLinkColumn.UpgradeOps);
    var p := CreateTableUser.UpgradeOps + AddIncludeLinkColumn.UpgradeOps;
    RenameColumns.Upgrade(db);
    ExecAllAppend(d0, p, RenameColumns.UpgradeOps);
    p := p + RenameColumns.UpgradeOps;
    RenameUserTableToChat.Upgrade(db);
    ExecAllAppend(d0, p, RenameUserTableToChat.UpgradeOps);
    p := p + RenameUserTableToChat.UpgradeOps;
    AddTypeColumn.Upgrade(db);
    ExecAllAppend(d0, p, AddTypeColumn.UpgradeOps);
    p := p + AddTypeColumn.UpgradeOps;
    RenameLastLinkToLastInfo.Upgrade(db);
    ExecAllAppend(d0, p, RenameLastLinkToLastInfo.UpgradeOps);
    p := p + RenameLastLinkToLastInfo.UpgradeOps;
    AddTwStyleColumn.Upgrade(db);
    ExecAllAppend(d0, p, AddTwStyleColumn.UpgradeOps);
  }

  /** `alembic downgrade base`: every revision's downgrade, from the head. */
  method DowngradeToBase(db: Database)
    modifies db
    ensures db.Snapshot() == ExecAll(old(db.Snapshot()), DowngradeOps)
  {
    var d0 := db.Snapshot();
    AddTwStyleColumn.Downgrade(db);
    RenameLastLinkToLastInfo.Downgrade(db);
    ExecAllAppend(d0, AddTwStyleColumn.DowngradeOps, RenameLastLinkToLastInfo.DowngradeOps);
    var q := AddTwStyleColumn.DowngradeOps + RenameLastLinkToLastInfo.DowngradeOps;
    AddTypeColumn.Downgrade(db);
    ExecAllAppend(d0, q, AddTypeColumn.DowngradeOps);
    q := q + AddTypeColumn.DowngradeOps;
    RenameUserTableToChat.Downgrade(db);
    ExecAllAppend(d0, q, RenameUserTableToChat.DowngradeOps);
    q := q + RenameUserTableToChat.DowngradeOps;
    RenameColumns.Downgrade(db);
    ExecAllAppend(d0, q, RenameColumns.DowngradeOps);
    q := q + RenameColumns.DowngradeOps;
    AddIncludeLinkColumn.Downgrade(db);
    ExecAllAppend(d0, q, AddIncludeLinkColumn.DowngradeOps);
    q := q + AddIncludeLinkColumn.DowngradeOps;
    CreateTableUser.Downgrade(db);
    ExecAllAppend(d0, q, CreateTableUser.DowngradeOps);
  }
}
