/** Revision 0bdf085f57f6, "Rename User table to Chat": the table and the
    index of its primary key, which PostgreSQL does not rename with it. */
module RenameUserTableToChat {
  import opened Common
  import opened Schema

  const Revision := "0bdf085f57f6"
  const DownRevision: Option<string> := Some("5a23d7a2aed3")

  const UpgradeOps: seq<Op> := [RenameTable("user", "chat"), RenameIndex("user_pkey", "chat_pkey")]
  const DowngradeOps: seq<Op> := [RenameTable("chat", "user"), RenameIndex("chat_pkey", "user_pkey")]

  method Upgrade(db: Database)
    modifies db
    ensures db.Snapshot() == ExecAll(old(db.Snapshot()), UpgradeOps)
  {
    db.Execute(RenameTable("user", "chat"));
    db.Execute(RenameIndex("user_pkey", "chat_pkey"));
    ExecTwo(old(db.Snapshot()), UpgradeOps[0], UpgradeOps[1]);
  }

  method Downgrade(db: Database)
    modifies db
    ensures db.Snapshot() == ExecAll(old(db.Snapshot()), DowngradeOps)
  {
    db.Execute(RenameTable("chat", "user"));
    db.Execute(RenameIndex("chat_pkey", "user_pkey"));
    ExecTwo(old(db.Snapshot()), DowngradeOps[0], DowngradeOps[1]);
  }

  /** The upgrade succeeds exactly when "user" and `user_pkey` exist and the
      new names are free; the table keeps its columns and key, every other
      table is untouched, and the index on "user" is then on "chat". */
  lemma UpgradeRenames(s: Schema)
    ensures Run(s, UpgradeOps).Some? <==>
              "user" in s.tables && "chat" !in s.tables && "user_pkey" in s.indexes && "chat_pkey" !in s.indexes
    ensures Run(s, UpgradeOps).Some? ==>
              var r := Run(s, UpgradeOps).value;
              && r.tables.Keys == s.tables.Keys - {"user"} + {"chat"}
              && r.tables["chat"] == s.tables["user"]
              && (forall u :: u in s.tables && u != "user" && u != "chat" ==> r.tables[u] == s.tables[u])
              && r.indexes.Keys == s.indexes.Keys - {"user_pkey"} + {"chat_pkey"}
              && (s.indexes["user_pkey"] == "user" ==> r.indexes["chat_pkey"] == "chat")
  {
    RenameTableAndIndex(s, "user", "chat", "user_pkey", "chat_pkey");
    if Run(s, UpgradeOps).Some? {
      MoveKeyFacts(s.tables, "user", "chat");
      var moved := Retarget(s.indexes, "user", "chat");
      MoveKeyFacts(moved, "user_pkey", "chat_pkey");
    }
  }

  /** Downgrade after upgrade gives back the schema the upgrade started from. */
  lemma RoundTrip(s: Schema)
    requires WellFormed(s) && Run(s, UpgradeOps).Some?
    ensures Run(Run(s, UpgradeOps).value, DowngradeOps) == Some(s)
  {
    RenameTableAndIndexBack(s, "user", "chat", "user_pkey", "chat_pkey");
  }
}
