/** Revision c71fb599b92b, "Add include_link column". */
module AddIncludeLinkColumn {
  import opened Common
  import opened Schema

  const Revision := "c71fb599b92b"
  const DownRevision: Option<string> := Some("2de57fa5e865")

  /** A non-null boolean whose server default is false. */
  const IncludeLink := Column(Boolean, false, false, Some(SqlFalse))

  const UpgradeOps: seq<Op> := [AddColumn("user", "include_link", IncludeLink)]
  const DowngradeOps: seq<Op> := [DropColumn("user", "include_link")]

  method Upgrade(db: Database)
    modifies db
    ensures db.Snapshot() == ExecAll(old(db.Snapshot()), UpgradeOps)
  {
    db.Execute(AddColumn("user", "include_link", IncludeLink));
    ExecOne(old(db.Snapshot()), UpgradeOps[0]);
  }

  method Downgrade(db: Database)
    modifies db
    ensures db.Snapshot() == ExecAll(old(db.Snapshot()), DowngradeOps)
  {
    db.Execute(DropColumn("user", "include_link"));
    ExecOne(old(db.Snapshot()), DowngradeOps[0]);
  }

  /** The upgrade succeeds exactly on a table "user" without the column, and
      then adds it and touches no other column, table or index. */
  lemma UpgradeAddsOnlyIncludeLink(s: Schema)
    ensures Run(s, UpgradeOps).Some? <==> "user" in s.tables && "include_link" !in s.tables["user"].columns
    ensures Run(s, UpgradeOps).Some? ==>
              var r := Run(s, UpgradeOps).value;
              && r.indexes == s.indexes
              && r.tables.Keys == s.tables.Keys
              && (forall t :: t in s.tables && t != "user" ==> r.tables[t] == s.tables[t])
              && r.tables["user"].primaryKey == s.tables["user"].primaryKey
              && r.tables["user"].columns == s.tables["user"].columns["include_link" := IncludeLink]
  {
    RunOne(s, UpgradeOps[0]);
  }

  /** Downgrade after upgrade gives back the schema the upgrade started from. */
  lemma RoundTrip(s: Schema)
    requires WellFormed(s) && Run(s, UpgradeOps).Some?
    ensures Run(Run(s, UpgradeOps).value, DowngradeOps) == Some(s)
  {
    RunOne(s, UpgradeOps[0]);
    RunOne(Run(s, UpgradeOps).value, DowngradeOps[0]);
    AddDrop(s, "user", "include_link", IncludeLink);
  }
}
