/** Revision 08cccf6bbe79, "Add type column". */
module AddTypeColumn {
  import opened Common
  import opened Schema

  const Revision := "08cccf6bbe79"
  const DownRevision: Option<string> := Some("0bdf085f57f6")

  /** A non-null string whose server default is "private". */
  const TypeColumn := Column(String, false, false, Some(Literal("private")))

  const UpgradeOps: seq<Op> := [AddColumn("chat", "type", TypeColumn)]
  const DowngradeOps: seq<Op> := [DropColumn("chat", "type")]

  method Upgrade(db: Database)
    modifies db
    ensures db.Snapshot() == ExecAll(old(db.Snapshot()), UpgradeOps)
  {
    db.Execute(AddColumn("chat", "type", TypeColumn));
    ExecOne(old(db.Snapshot()), UpgradeOps[0]);
  }

  method Downgrade(db: Database)
    modifies db
    ensures db.Snapshot() == ExecAll(old(db.Snapshot()), DowngradeOps)
  {
    db.Execute(DropColumn("chat", "type"));
    ExecOne(old(db.Snapshot()), DowngradeOps[0]);
  }

  /** The upgrade succeeds exactly on a table "chat" without the column, and
      then adds it and touches no other column, table or index. */
  lemma UpgradeAddsOnlyTypeColumn(s: Schema)
    ensures Run(s, UpgradeOps).Some? <==> "chat" in s.tables && "type" !in s.tables["chat"].columns
    ensures Run(s, UpgradeOps).Some? ==>
              var r := Run(s, UpgradeOps).value;
              && r.indexes == s.indexes
              && r.tables.Keys == s.tables.Keys
              && (forall t :: t in s.tables && t != "chat" ==> r.tables[t] == s.tables[t])
              && r.tables["chat"].primaryKey == s.tables["chat"].primaryKey
              && r.tables["chat"].columns == s.tables["chat"].columns["type" := TypeColumn]
  {
    RunOne(s, UpgradeOps[0]);
  }

  /** Downgrade after upgrade gives back the schema the upgrade started from. */
  lemma RoundTrip(s: Schema)
    requires WellFormed(s) && Run(s, UpgradeOps).Some?
    ensures Run(Run(s, UpgradeOps).value, DowngradeOps) == Some(s)
  {
    RunOne(s, UpgradeOps[0]);
    RunOne(Run(s, UpgradeOps).value, DowngradeOps[0]);
    AddDrop(s, "chat", "type", TypeColumn);
  }
}
