/** Revision 5a23d7a2aed3, "Rename columns": `full_name` becomes `name` and
    `nick_name` becomes `chat_link`. */
module RenameColumns {
  import opened Common
  import opened Schema

  const Revision := "5a23d7a2aed3"
  const DownRevision: Option<string> := Some("c71fb599b92b")

  const UpgradeOps: seq<Op> := [AlterColumnName("user", "full_name", "name"), AlterColumnName("user", "nick_name", "chat_link")]
  const DowngradeOps: seq<Op> := [AlterColumnName("user", "name", "full_name"), AlterColumnName("user", "chat_link", "nick_name")]

  method Upgrade(db: Database)
    modifies db
    ensures db.Snapshot() == ExecAll(old(db.Snapshot()), UpgradeOps)
  {
    db.Execute(AlterColumnName("user", "full_name", "name"));
    db.Execute(AlterColumnName("user", "nick_name", "chat_link"));
    ExecTwo(old(db.Snapshot()), UpgradeOps[0], UpgradeOps[1]);
  }

  method Downgrade(db: Database)
    modifies db
    ensures db.Snapshot() == ExecAll(old(db.Snapshot()), DowngradeOps)
  {
    db.Execute(AlterColumnName("user", "name", "full_name"));
    db.Execute(AlterColumnName("user", "chat_link", "nick_name"));
    ExecTwo(old(db.Snapshot()), DowngradeOps[0], DowngradeOps[1]);
  }

  /** The upgrade succeeds exactly on a table "user" that has both old
      names and neither new one; it moves the two columns' attributes to
      their new names, keeps every other column and the number of columns,
      and leaves the indexes alone. */
  lemma UpgradeRenames(s: Schema)
    ensures Run(s, UpgradeOps).Some? <==>
              && "user" in s.tables && "full_name" in s.tables["user"].columns && "nick_name" in s.tables["user"].columns
              && "name" !in s.tables["user"].columns && "chat_link" !in s.tables["user"].columns
    ensures Run(s, UpgradeOps).Some? ==>
              var cols, cols' := s.tables["user"].columns, Run(s, UpgradeOps).value.tables["user"].columns;
              && cols'.Keys == cols.Keys - {"full_name", "nick_name"} + {"name", "chat_link"}
              && |cols'| == |cols|
              && cols'["name"] == cols["full_name"] && cols'["chat_link"] == cols["nick_name"]
              && (forall c :: c in cols && c != "full_name" && c != "nick_name" ==> cols'[c] == cols[c])
              && Run(s, UpgradeOps).value.indexes == s.indexes
  {
    RenameTwoColumns(s, "user", "full_name", "name", "nick_name", "chat_link");
    if Run(s, UpgradeOps).Some? {
      RenamedTwiceKeeps(s.tables["user"].columns, "full_name", "name", "nick_name", "chat_link");
    }
  }

  /** Downgrade after upgrade gives back the schema the upgrade started from. */
  lemma RoundTrip(s: Schema)
    requires WellFormed(s) && Run(s, UpgradeOps).Some?
    ensures Run(Run(s, UpgradeOps).value, DowngradeOps) == Some(s)
  {
    RenameTwoColumnsBack(s, "user", "full_name", "name", "nick_name", "chat_link");
  }
}
