/**
 The values that rows hold after a complete run of the migrations: defaults of added columns, and
 normalised values where the script normalises.
 */
module MigrationValues {
  import opened Common
  import opened Migrations
  import opened MigrationRestart
  import opened MigrationProgram
  import opened MigrationOrder
  import opened MigrationEffects

  /** The column as the row has it before the run, or as the script adds it. */
  ghost function Initial(db: Db, t: Name, k: Name, col: Col): (r: Col)
    requires Has(db, t, k)
    ensures r.name == col.name
  {
    if (t, col.name) in db.columns then Col(col.name, db.columns[(t, col.name)], Get(db.data[t][k], col.name)) else col
  }

  lemma InitiallyHolding(db: Db, t: Name, k: Name, col: Col)
    requires Has(db, t, k)
    ensures Holding(db, t, k, Initial(db, t, k, col), Some(col))
    ensures (t, col.name) in db.columns ==> Holding(db, t, k, Initial(db, t, k, col), None)
  {
  }

  // ---- columns that nothing normalises ----

  const NORMALIZED: set<Name> :=
    {"group_invite_privacy", "language", "totp_enabled_at", "session_auto_logout_seconds", "created_at"}

  predicate Normalized(t: Name, c: Name) {
    t == "users" && (c in Privacy() || c in NORMALIZED)
  }

  lemma PlainIndifferent(t: Name, now: Col)
    requires SparedColumn(t, now.name) && !Normalized(t, now.name)
    ensures Indifferent(t, now, None)
  {
    assert "group_invite_privacy" in NORMALIZED && "language" in NORMALIZED && "totp_enabled_at" in NORMALIZED;
    assert "session_auto_logout_seconds" in NORMALIZED && "created_at" in NORMALIZED;
    assert ExtendedPrivacy() <= Privacy();
    hide Privacy, ExtendedPrivacy, IsChoice;
    forall u | Known(u)
      ensures FixedBy(u, t, now)
    {
    }
  }

  /** The default is what the normalisations would leave. */
  predicate Steady(col: Col) {
    && (col.name in Privacy() || col.name == "group_invite_privacy" ==> IsChoice(col.value))
    && (col.name == "language" ==> col.value == Text("ru"))
    && (col.name == "session_auto_logout_seconds" ==> col.value == Number(MONTH))
    && (col.name == "created_at" ==> col.value == Timestamp)
  }

  lemma ProfileSteady()
    ensures forall j :: 0 <= j < |ProfileColumns()| ==> Steady(ProfileColumns()[j])
  {
  }

  lemma ChoiceSteady()
    ensures forall j :: 0 <= j < |ChoiceColumns()| ==> Steady(ChoiceColumns()[j])
  {
    hide Privacy;
  }

  lemma AccountSteady()
    ensures forall j :: 0 <= j < |AccountColumns()| ==> Steady(AccountColumns()[j])
  {
  }

  lemma UsersSteady(col: Col)
    requires col in UserColumns()
    ensures Steady(col)
  {
    hide ProfileColumns, ChoiceColumns, AccountColumns, Steady;
    ProfileSteady();
    ChoiceSteady();
    AccountSteady();
  }

  lemma DefaultIndifferent(col: Col)
    requires col in UserColumns() && col.name != "totp_enabled_at"
    ensures Indifferent("users", col, None)
  {
    UsersSteady(col);
    assert ExtendedPrivacy() <= Privacy();
    hide UserColumns, Privacy, ExtendedPrivacy, IsChoice;
    forall u | Known(u)
      ensures FixedBy(u, "users", col)
    {
    }
  }

  lemma Everywhere(p: seq<Item>)
    ensures forall n :: 0 <= n < |p| ==> Skips(p[n], None)
  {
  }

  // ---- the columns are there ----

  lemma {:induction false} EachContains(ss: seq<Stmt>, s: Stmt)
    requires s in ss
    ensures Do(s) in Each(ss)
  {
    var i :| 0 <= i < |ss| && ss[i] == s;
    assert Each(ss)[i] == Do(s);
  }

  lemma AddsContain(t: Name, cols: seq<Col>, col: Col)
    requires col in cols
    ensures Do(AddColumn(t, col.name, col.nullable, col.value)) in Each(Adds(t, cols))
  {
    var i :| 0 <= i < |cols| && cols[i] == col;
    assert Adds(t, cols)[i] == AddColumn(t, col.name, col.nullable, col.value);
    EachContains(Adds(t, cols), AddColumn(t, col.name, col.nullable, col.value));
  }

  /** The first part of the script, with the columns of messages and users. */
  function Schemas(base: seq<Stmt>): seq<Item> {
    Each(base) + [Item.Commit] + MessagesSchema() + UsersSchema()
  }

  function AfterSchemas(): seq<Item> {
    Each(Adds("chats", ChatColumns())) + InviteRequests() + Normalizations() + NewFeatures()
    + [Do(Update(NormalizePrivacy))] + Late()
  }

  lemma ProgramParts(base: seq<Stmt>)
    ensures RunMigrations(base) == Schemas(base) + AfterSchemas()
  {
    hide Each, MessagesSchema, UsersSchema, Adds, InviteRequests, Normalizations, NewFeatures, Late;
    var chats := Each(Adds("chats", ChatColumns()));
    var rest := chats + InviteRequests() + Normalizations() + NewFeatures();
    assert Early(base) == Schemas(base) + rest;
    assert Schemas(base) + rest + [Do(Update(NormalizePrivacy))] + Late()
        == Schemas(base) + (rest + [Do(Update(NormalizePrivacy))] + Late());
  }

  lemma SchemasContain(base: seq<Stmt>, t: Name, col: Col)
    requires (t == "messages" || t == "users") && col in ColumnsOf(t)
    ensures Do(AddColumn(t, col.name, col.nullable, col.value)) in Schemas(base)
  {
    AddsContain(t, ColumnsOf(t), col);
    hide Each, Adds, MessageColumns, UserColumns, ChatColumns;
  }

  lemma ScriptContains(base: seq<Stmt>, t: Name, col: Col)
    requires col in ColumnsOf(t)
    ensures Do(AddColumn(t, col.name, col.nullable, col.value)) in RunMigrations(base)
  {
    hide MessageColumns, UserColumns, ChatColumns, Schemas, Late, Each, Adds;
    ProgramParts(base);
    if t == "chats" {
      AddsContain(t, ColumnsOf(t), col);
    } else {
      SchemasContain(base, t, col);
    }
  }

  lemma ColumnPresent(p: seq<Item>, db: Db, t: Name, col: Col)
    requires Settled(p, db) && Do(AddColumn(t, col.name, col.nullable, col.value)) in p
    ensures (t, col.name) in db.columns
  {
    var n :| 0 <= n < |p| && p[n] == Do(AddColumn(t, col.name, col.nullable, col.value));
    assert Done(p[n], db);
  }

  /** The row of the database after the run, where the column is there. */
  ghost predicate Arrived(db: Db, t: Name, k: Name, col: Col) {
    && Has(db, t, k) && (t, col.name) in db.columns
    && db.columns[(t, col.name)] == col.nullable && Get(db.data[t][k], col.name) == col.value
  }

  lemma HoldingArrived(db: Db, t: Name, k: Name, now: Col, added: Option<Col>)
    requires Holding(db, t, k, now, added) && (t, now.name) in db.columns
    ensures Arrived(db, t, k, now)
  {
  }

  /** The script is in order, and everything it contains is done in the end. */
  ghost predicate Completed(p: seq<Item>, b: Backfills, db: Db) {
    && Sparing(b) && AllAtHome(p) && AllShaped(p) && Settled(p, Migrated(p, b, db))
    && forall n :: 0 <= n < |p| ==> Skips(p[n], None)
  }

  lemma ScriptCompletes(base: seq<Stmt>, b: Backfills, db: Db)
    requires IsBaseSchema(base) && Sparing(b)
    ensures Completed(RunMigrations(base), b, db)
  {
    hide RunMigrations, IsBaseSchema, Sparing, AllAtHome, AllShaped, Settled;
    ProgramAtHome(base);
    RunFinishes(base, b, db);
  }

  /** The database after a complete run holds the column of the row like this. */
  ghost predicate Ends(p: seq<Item>, b: Backfills, db: Db, t: Name, k: Name, col: Col) {
    Arrived(Migrated(p, b, db), t, k, col)
  }

  lemma ColumnEnds(p: seq<Item>, b: Backfills, db: Db, t: Name, k: Name, col: Col)
    requires Completed(p, b, db) && Has(db, t, k) && col in ColumnsOf(t) && SparedColumn(t, col.name)
    requires Normalized(t, col.name) ==> (t, col.name) !in db.columns && col.name != "totp_enabled_at"
    requires Do(AddColumn(t, col.name, col.nullable, col.value)) in p
    ensures Ends(p, b, db, t, k, Initial(db, t, k, col))
  {
    hide Has, Holding, Sparing, AllAtHome, AllShaped, Settled, Skips, ColumnsOf, Normalized, Initial, Migrated,
      Indifferent, Expected, SparedColumn, Arrived;
    var now := Initial(db, t, k, col);
    InitiallyHolding(db, t, k, col);
    ColumnExpected(t, col, now);
    InitialIndifferent(db, t, k, col);
    RunLeaves(p, b, db, t, k, now, Some(col), None);
    ColumnPresent(p, Migrated(p, b, db), t, col);
    HoldingArrived(Migrated(p, b, db), t, k, now, Some(col));
  }

  /**
   Every column of the script is there after a complete run.  If it was missing, each row has its
   default; if it was there and is not normalised, each row has the value it had.
   */
  lemma ColumnArrives(base: seq<Stmt>, b: Backfills, db: Db, t: Name, k: Name, col: Col)
    requires IsBaseSchema(base) && Sparing(b) && Has(db, t, k)
    requires col in ColumnsOf(t) && SparedColumn(t, col.name)
    requires Normalized(t, col.name) ==> (t, col.name) !in db.columns && col.name != "totp_enabled_at"
    ensures Ends(RunMigrations(base), b, db, t, k, Initial(db, t, k, col))
  {
    hide *;
    ScriptCompletes(base, b, db);
    ScriptContains(base, t, col);
    ColumnEnds(RunMigrations(base), b, db, t, k, col);
  }

  lemma InitialIndifferent(db: Db, t: Name, k: Name, col: Col)
    requires Has(db, t, k) && col in ColumnsOf(t) && SparedColumn(t, col.name)
    requires Normalized(t, col.name) ==> (t, col.name) !in db.columns && col.name != "totp_enabled_at"
    ensures Indifferent(t, Initial(db, t, k, col), None)
  {
    hide Indifferent, SparedColumn;
    if Normalized(t, col.name) {
      assert t == "users" && col in UserColumns();
      DefaultIndifferent(col);
    } else {
      PlainIndifferent(t, Initial(db, t, k, col));
    }
  }

  lemma ProgramAtHome(base: seq<Stmt>)
    requires IsBaseSchema(base)
    ensures AllAtHome(RunMigrations(base)) && AllShaped(RunMigrations(base))
    ensures forall n :: 0 <= n < |RunMigrations(base)| ==> Skips(RunMigrations(base)[n], None)
  {
    hide RunMigrations;
    ProgramInOrder(base);
    Everywhere(RunMigrations(base));
  }

  lemma ColumnExpected(t: Name, col: Col, now: Col)
    requires col in ColumnsOf(t) && now.name == col.name
    ensures Expected(t, now, Some(col))
  {
    NamesDiffer();
    hide MessageColumns, UserColumns, ChatColumns;
  }

  /** A column that was there keeps its values through the run, unless it is normalised. */
  lemma ColumnKept(base: seq<Stmt>, b: Backfills, db: Db, t: Name, k: Name, col: Col)
    requires IsBaseSchema(base) && Sparing(b) && Arrived(db, t, k, col)
    requires SparedColumn(t, col.name) && !Normalized(t, col.name) && (t, col.name) != ("messages", "receiver_id")
    ensures Ends(RunMigrations(base), b, db, t, k, col)
  {
    hide *;
    PresentHolding(db, t, k, col);
    PlainIndifferent(t, col);
    ProgramAtHome(base);
    RunLeaves(RunMigrations(base), b, db, t, k, col, None, None);
    HoldingEnds(RunMigrations(base), b, db, t, k, col);
  }

  lemma HoldingEnds(p: seq<Item>, b: Backfills, db: Db, t: Name, k: Name, col: Col)
    requires Holding(Migrated(p, b, db), t, k, col, None)
    ensures Ends(p, b, db, t, k, col)
  {
  }

  lemma PresentHolding(db: Db, t: Name, k: Name, col: Col)
    requires Arrived(db, t, k, col)
    ensures Holding(db, t, k, col, None)
    ensures (t, col.name) != ("messages", "receiver_id") ==> Expected(t, col, None)
  {
  }

  const IS_DELIVERED: Col := Col("is_delivered", false, Number(0))

  lemma DeliveredAdded(db: Db, k: Name)
    requires Has(db, "messages", k) && ("messages", "is_delivered") !in db.columns
    ensures IS_DELIVERED in ColumnsOf("messages") && SparedColumn("messages", IS_DELIVERED.name)
    ensures IS_DELIVERED == Col("is_delivered", false, Number(0))
    ensures !Normalized("messages", IS_DELIVERED.name) && Initial(db, "messages", k, IS_DELIVERED) == IS_DELIVERED
  {
    assert MessageColumns()[8] == IS_DELIVERED;
    hide MessageColumns, UserColumns, ChatColumns;
  }

  /** For instance, messages from before the column have not been delivered. */
  lemma OldMessagesUndelivered(base: seq<Stmt>, b: Backfills, db: Db, k: Name)
    requires IsBaseSchema(base) && Sparing(b) && Has(db, "messages", k) && ("messages", "is_delivered") !in db.columns
    ensures Ends(RunMigrations(base), b, db, "messages", k, Col("is_delivered", false, Number(0)))
  {
    hide *;
    DeliveredAdded(db, k);
    ColumnArrives(base, b, db, "messages", k, IS_DELIVERED);
  }
}
