/** Revision b5115239219d, "Add tw_style column": the head of the chain. */
module AddTwStyleColumn {
  import opened Common
  import opened Schema

  const Revision := "b5115239219d"
  const DownRevision: Option<string> := Some("d461dd6281a5")

  /** A non-null integer whose server default is "0". */
  const TwStyleColumn := Column(Integer, false, false, Some(Literal("0")))

  const UpgradeOps: seq<Op> := [AddColumn("chat", "tw_style", TwStyleColumn)]
  const DowngradeOps: seq<Op> := [DropColumn("chat", "tw_style")]

  method Upgrade(db: Database)
    modifies db
    ensures db.Snapshot() == ExecAll(old(db.Snapshot()), UpgradeOps)
  {
    db.Execute(AddColumn("chat", "tw_style", TwStyleColumn));
    ExecOne(old(db.Snapshot()), UpgradeOps[0]);
  }

  method Downgrade(db: Database)
    modifies db
    ensures db.Snapshot() == ExecAll(old(db.Snapshot()), DowngradeOps)
  {
    db.Execute(DropColumn("chat", "tw_style"));
    ExecOne(old(db.Snapshot()), DowngradeOps[0]);
  }

  /** The upgrade succeeds exactly on a table "chat" without the column, and
      then adds it and touches no other column, table or index. */
  lemma UpgradeAddsOnlyTwStyleColumn(s: Schema)
    ensures Run(s, UpgradeOps).Some? <==> "chat" in s.tables && "tw_style" !in s.tables["chat"].columns
    ensures Run(s, UpgradeOps).Some? ==>
              var r := Run(s, UpgradeOps).value;
              && r.indexes == s.indexes
              && r.tables.Keys == s.tables.Keys
              && (forall t :: t in s.tables && t != "chat" ==> r.tables[t] == s.tables[t])
              && r.tables["chat"].primaryKey == s.tables["chat"].primaryKey
              && r.tables["chat"].columns == s.tables["chat"].columns["tw_style" := TwStyleColumn]
  {
    RunOne(s, UpgradeOps[0]);
  }

  /** Downgrade after upgrade gives back the schema the upgrade started from. */
  lemma RoundTrip(s: Schema)
    requires WellFormed(s) && Run(s, UpgradeOps).Some?
    ensures Run(Run(s, UpgradeOps).value, DowngradeOps) == Some(s)
  {
    RunOne(s, UpgradeOps[0]);
    RunOne(Run(s, UpgradeOps).value, DowngradeOps[0]);
    AddDrop(s, "chat", "tw_style", TwStyleColumn);
  }
}
