/** Revision d461dd6281a5, "Rename last_link to last_info". */
module RenameLastLinkToLastInfo {
  import opened Common
  import opened Schema

  const Revision := "d461dd6281a5"
  const DownRevision: Option<string> := Some("08cccf6bbe79")

  const UpgradeOps: seq<Op> := [AlterColumnName("chat", "last_link", "last_info")]
  const DowngradeOps: seq<Op> := [AlterColumnName("chat", "last_info", "last_link")]

  method Upgrade(db: Database)
    modifies db
    ensures db.Snapshot() == ExecAll(old(db.Snapshot()), UpgradeOps)
  {
    db.Execute(AlterColumnName("chat", "last_link", "last_info"));
    ExecOne(old(db.Snapshot()), UpgradeOps[0]);
  }

  method Downgrade(db: Database)
    modifies db
    ensures db.Snapshot() == ExecAll(old(db.Snapshot()), DowngradeOps)
  {
    db.Execute(AlterColumnName("chat", "last_info", "last_link"));
    ExecOne(old(db.Snapshot()), DowngradeOps[0]);
  }

  /** The upgrade succeeds exactly on a table "chat" with `last_link` and
      without `last_info`; the column keeps its attributes under the new
      name, and every other column, table and index stays. */
  lemma UpgradeRenames(s: Schema)
    ensures Run(s, UpgradeOps).Some? <==>
              "chat" in s.tables && "last_link" in s.tables["chat"].columns && "last_info" !in s.tables["chat"].columns
    ensures Run(s, UpgradeOps).Some? ==>
              var r := Run(s, UpgradeOps).value;
              var cols, cols' := s.tables["chat"].columns, r.tables["chat"].columns;
              && r.indexes == s.indexes
              && r.tables.Keys == s.tables.Keys
              && (forall t :: t in s.tables && t != "chat" ==> r.tables[t] == s.tables[t])
              && cols'.Keys == cols.Keys - {"last_link"} + {"last_info"}
              && cols'["last_info"] == cols["last_link"]
              && (forall c :: c in cols && c != "last_link" ==> cols'[c] == cols[c])
  {
    RunOne(s, UpgradeOps[0]);
    if Run(s, UpgradeOps).Some? {
      MoveKeyFacts(s.tables["chat"].columns, "last_link", "last_info");
    }
  }

  /** Downgrade after upgrade gives back the schema the upgrade started from. */
  lemma RoundTrip(s: Schema)
    requires WellFormed(s) && Run(s, UpgradeOps).Some?
    ensures Run(Run(s, UpgradeOps).value, DowngradeOps) == Some(s)
  {
    RunOne(s, UpgradeOps[0]);
    RunOne(Run(s, UpgradeOps).value, DowngradeOps[0]);
    RenameColumnBack(s, "chat", "last_link", "last_info");
  }
}
