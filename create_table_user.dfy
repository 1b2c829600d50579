/** Revision 2de57fa5e865, "Create table User": the root of the chain. */
module CreateTableUser {
  import opened Common
  import opened Schema

  const Revision := "2de57fa5e865"
  const DownRevision: Option<string> := None

  /** The columns of the first table: a BigInteger key that is not
      generated, three optional strings and three non-null flags. */
  const UserColumns: map<string, Column> := map[
    "id" := Column(BigInteger, false, false, None),
    "full_name" := Column(String, true, false, None),
    "nick_name" := Column(String, true, false, None),
    "last_link" := Column(String, true, false, None),
    "tw_orig" := Column(Boolean, false, false, None),
    "tt_orig" := Column(Boolean, false, false, None),
    "in_orig" := Column(Boolean, false, false, None)
  ]

  const UpgradeOps: seq<Op> := [CreateTable("user", UserColumns, "id")]
  const DowngradeOps: seq<Op> := [DropTable("user")]

  method Upgrade(db: Database)
    modifies db
    ensures db.Snapshot() == ExecAll(old(db.Snapshot()), UpgradeOps)
  {
    db.Execute(CreateTable("user", UserColumns, "id"));
    ExecOne(old(db.Snapshot()), UpgradeOps[0]);
  }

  method Downgrade(db: Database)
    modifies db
    ensures db.Snapshot() == ExecAll(old(db.Snapshot()), DowngradeOps)
  {
    db.Execute(DropTable("user"));
    ExecOne(old(db.Snapshot()), DowngradeOps[0]);
  }

  lemma UserPkey()
    ensures PkeyIndex("user") == "user_pkey" && "id" in UserColumns
  {
    assert PkeyIndex("user") == "user" + "_pkey";
  }

  /** On the empty schema the upgrade creates table "user" with exactly its
      seven columns, keyed by `id`, and the index `user_pkey` on it. */
  lemma UpgradeFromEmpty()
    ensures Run(Empty, UpgradeOps) == Some(Schema(map["user" := Table(UserColumns, "id")], map["user_pkey" := "user"]))
  {
    UserPkey();
    RunOne(Empty, UpgradeOps[0]);
  }

  /** The upgrade fails only when the table or its key index exists already. */
  lemma UpgradeFails(s: Schema)
    ensures Run(s, UpgradeOps).None? <==> "user" in s.tables || "user_pkey" in s.indexes
  {
    UserPkey();
    RunOne(s, UpgradeOps[0]);
  }

  /** Downgrade after upgrade gives back the schema the upgrade started from. */
  lemma RoundTrip(s: Schema)
    requires WellFormed(s) && Run(s, UpgradeOps).Some?
    ensures Run(Run(s, UpgradeOps).value, DowngradeOps) == Some(s)
  {
    RunOne(s, UpgradeOps[0]);
    RunOne(Run(s, UpgradeOps).value, DowngradeOps[0]);
    CreateDrop(s, "user", UserColumns, "id");
  }
}
