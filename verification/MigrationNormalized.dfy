/**
 What the normalisations leave in a user's row after a complete run, whether the column was there
 before or was added on the way.
 */
module MigrationNormalized {
  import opened Common
  import opened Migrations
  import opened MigrationRestart
  import opened MigrationProgram
  import opened MigrationOrder
  import opened MigrationEffects
  import opened MigrationValues

  // ---- a column that one guarded step changes ----

  predicate Watched(it: Item) {
    it == FILL_CREATED_AT || it == NORMALIZE_PROFILES || it == NORMALIZE_INVITES || it == RESET_AUTO_LOGOUT
  }

  /** The data change of such a step, on one row of `users`. */
  function RowChange(it: Item, r: Row): Row {
    if it == FILL_CREATED_AT then (if Get(r, "created_at") == Null then r["created_at" := Timestamp] else r)
    else if it == NORMALIZE_PROFILES then Profile(r)
    else if it == NORMALIZE_INVITES then WithChoices(r, {"group_invite_privacy"})
    else AutoLogout(r)
  }

  function ChangeOf(it: Item): Change
    requires Watched(it)
    ensures Known(ChangeOf(it)) && Home(ChangeOf(it)) == Some(it.version) && it.rest == [Update(ChangeOf(it))]
  {
    it.rest[0].change
  }

  /** The step makes `next` of `now` in every row, perhaps in view of a third column. */
  ghost predicate Turns(it: Item, now: Col, next: Col, other: Option<Col>) {
    && next.name == now.name && next.nullable == now.nullable
    && forall r: Row ::
         Get(r, now.name) == now.value && (other.Some? ==> Get(r, other.value.name) == other.value.value) ==>
           Get(RowChange(it, r), now.name) == next.value
  }

  /** Before the step is recorded the row has one value, and the other from then on. */
  ghost predicate Phase(db: Db, k: Name, now: Col, next: Col, other: Option<Col>, it: Item)
    requires Watched(it)
  {
    && Holding(db, "users", k, if it.version in db.versions then next else now, None)
    && (other.Some? ==> Holding(db, "users", k, other.value, None))
  }

  /** What the columns must be like for this. */
  ghost predicate Apart(now: Col, next: Col, other: Option<Col>, it: Item)
    requires Watched(it)
  {
    && Indifferent("users", now, Some(ChangeOf(it))) && Indifferent("users", next, Some(ChangeOf(it)))
    && (other.Some? ==> Indifferent("users", other.value, None))
  }

  lemma {:induction false} VersionsKept(ss: seq<Stmt>, v: nat, b: Backfills, db: Db)
    requires forall m :: 0 <= m < |ss| ==> ss[m] != Record(v)
    ensures v in EffAll(ss, b, db).versions <==> v in db.versions
    decreases |ss|
  {
    if ss != [] {
      hide Changed;
      VersionsKept(ss[1..], v, b, Eff(ss[0], b, db));
    }
  }

  /** Another step neither records this version nor makes this data change. */
  lemma OtherStmts(i: Item, it: Item)
    requires Watched(it) && AtHome(i) && !(i.Unless? && i.version == it.version)
    ensures forall m :: 0 <= m < |StmtsOf(i)| ==>
              StmtsOf(i)[m] != Record(it.version) && StmtsOf(i)[m] != Update(ChangeOf(it))
  {
    assert it.version in HOMES;
    forall m | 0 <= m < |StmtsOf(i)|
      ensures StmtsOf(i)[m] != Record(it.version) && StmtsOf(i)[m] != Update(ChangeOf(it))
    {
      assert AtHomeStmt(StmtsOf(i)[m], if i.Unless? then Some(i.version) else None);
    }
    hide Listed;
  }

  lemma ItemVersions(i: Item, version: nat, b: Backfills, db: Db)
    requires forall m :: 0 <= m < |StmtsOf(i)| ==> StmtsOf(i)[m] != Record(version)
    ensures version in EffItem(i, b, db).versions <==> version in db.versions
  {
    hide Eff, EffAll;
    var ss := StmtsOf(i);
    match i
    case Do(s) =>
      assert ss[0] == s;
      OneStmt(s, b, db);
      VersionsKept([s], version, b, db);
    case Commit =>
    case Unless(v, adds, rest, _) =>
      assert forall m :: 0 <= m < |adds| ==> ss[m] == adds[m];
      assert forall m :: 0 <= m < |rest| + 1 ==> ss[|adds| + m] == (rest + [Record(v)])[m];
      VersionsKept(adds, version, b, db);
      VersionsKept(rest + [Record(v)], version, b, EffAll(adds, b, db));
  }

  lemma OneStmt(s: Stmt, b: Backfills, db: Db)
    ensures EffAll([s], b, db) == Eff(s, b, db)
  {
    hide Eff;
    assert [s][1..] == [];
  }

  lemma OtherItem(i: Item, it: Item, b: Backfills, db: Db)
    requires Watched(it) && AtHome(i) && !(i.Unless? && i.version == it.version)
    ensures Skips(i, Some(ChangeOf(it)))
    ensures it.version in EffItem(i, b, db).versions <==> it.version in db.versions
  {
    hide AtHome, EffItem;
    OtherStmts(i, it);
    ItemVersions(i, it.version, b, db);
  }

  lemma ChangedRow(it: Item, b: Backfills, db: Db, k: Name)
    requires Watched(it) && Has(db, "users", k)
    ensures var after := Eff(Update(ChangeOf(it)), b, db);
            && Has(after, "users", k) && after.columns == db.columns && after.versions == db.versions
            && after.data["users"][k] == RowChange(it, db.data["users"][k])
  {
    hide Profile, WithChoices, AutoLogout;
  }

  lemma AddsHold(it: Item, b: Backfills, db: Db, k: Name, now: Col)
    requires Watched(it) && Holding(db, "users", k, now, None) && Sparing(b)
    ensures Holding(EffAll(it.adds, b, db), "users", k, now, None)
  {
    hide Holding, Sparing;
    StmtsHold(it.adds, b, db, "users", k, now, None);
  }

  lemma RestIs(it: Item, b: Backfills, db: Db)
    requires Watched(it)
    ensures EffAll(it.rest + [Record(it.version)], b, db)
         == Eff(Record(it.version), b, Eff(Update(ChangeOf(it)), b, db))
  {
    hide Eff;
    var ss, s := it.rest + [Record(it.version)], Record(it.version);
    var db1 := Eff(Update(ChangeOf(it)), b, db);
    assert ss[0] == Update(ChangeOf(it)) && ss[1..] == [s];
    assert EffAll(ss, b, db) == EffAll([s], b, db1);
    assert [s][1..] == [];
    assert EffAll([s], b, db1) == EffAll([], b, Eff(s, b, db1));
  }

  lemma OwnItem(it: Item, b: Backfills, db: Db, k: Name, now: Col, next: Col, other: Option<Col>)
    requires Watched(it) && it.version !in db.versions && Sparing(b)
    requires Phase(db, k, now, next, other, it) && Turns(it, now, next, other)
    requires other.Some? ==> Indifferent("users", other.value, None)
    ensures it.version in EffItem(it, b, db).versions
    ensures Phase(EffItem(it, b, db), k, now, next, other, it)
  {
    hide Changed, Sparing, RowChange, Indifferent;
    AddsHold(it, b, db, k, now);
    var db1 := EffAll(it.adds, b, db);
    ChangedRow(it, b, db1, k);
    RestIs(it, b, db1);
    if other.Some? {
      AddsHold(it, b, db, k, other.value);
      OtherKept(it, b, db1, k, other.value);
    }
    assert Holding(Eff(Update(ChangeOf(it)), b, db1), "users", k, next, None);
  }

  lemma OtherKept(it: Item, b: Backfills, db: Db, k: Name, other: Col)
    requires Watched(it) && Holding(db, "users", k, other, None) && Sparing(b) && Indifferent("users", other, None)
    ensures Holding(Eff(Update(ChangeOf(it)), b, db), "users", k, other, None)
  {
    assert FixedBy(ChangeOf(it), "users", other);
    hide Holding, Sparing, FixedBy, Changed;
    StmtHolds(Update(ChangeOf(it)), b, db, "users", k, other, None);
  }

  lemma ItemPhase(i: Item, b: Backfills, db: Db, k: Name, now: Col, next: Col, other: Option<Col>, it: Item)
    requires Watched(it) && AtHome(i) && Shaped(i) && Sparing(b)
    requires Phase(db, k, now, next, other, it) && Apart(now, next, other, it)
    requires it.version !in db.versions ==> Turns(it, now, next, other)
    ensures Phase(EffItem(i, b, db), k, now, next, other, it)
    ensures it.version in db.versions ==> it.version in EffItem(i, b, db).versions
  {
    hide Holding, Sparing, Indifferent, AtHome, Turns, Changed, Eff, EffAll;
    if i.Unless? && i.version == it.version {
      assert i == it;
      if it.version !in db.versions {
        OwnItem(it, b, db, k, now, next, other);
      }
    } else {
      OtherItem(i, it, b, db);
      var held := if it.version in db.versions then next else now;
      CalmFrom(i, "users", held, None, Some(ChangeOf(it)));
      ItemHolds(i, b, db, "users", k, held, None);
      if other.Some? {
        assert Skips(i, None);
        CalmFrom(i, "users", other.value, None, None);
        ItemHolds(i, b, db, "users", k, other.value, None);
      }
    }
  }

  lemma {:induction false} RunPhase(
    p: seq<Item>, b: Backfills, db: Db, k: Name, now: Col, next: Col, other: Option<Col>, it: Item)
    requires Watched(it) && AllAtHome(p) && AllShaped(p) && Sparing(b)
    requires Phase(db, k, now, next, other, it) && Apart(now, next, other, it)
    requires it.version !in db.versions ==> Turns(it, now, next, other)
    ensures Phase(Migrated(p, b, db), k, now, next, other, it)
    decreases |p|
  {
    hide Phase, Apart, Turns, AtHome, Shaped, Sparing, EffItem, Watched;
    if p != [] {
      ItemPhase(p[0], b, db, k, now, next, other, it);
      RunPhase(p[1..], b, EffItem(p[0], b, db), k, now, next, other, it);
    }
  }

  // ---- the steps and columns in the script ----

  lemma WatchedContained(base: seq<Stmt>, it: Item)
    requires Watched(it)
    ensures it in RunMigrations(base)
    ensures it != FILL_CREATED_AT ==> it in AfterSchemas()
  {
    hide Each, Adds, MessagesSchema, InviteRequests, NewFeatures, Keys, Devices, SpotifyTables, CallTables, Allowlist;
    ProgramParts(base);
    if it == FILL_CREATED_AT {
      assert UsersSchema()[|UsersSchema()| - 1] == it;
      assert it in Schemas(base);
    } else if it == RESET_AUTO_LOGOUT {
      assert Calls()[2] == it;
    } else {
      assert Profiles()[0] == NORMALIZE_PROFILES && Profiles()[1] == NORMALIZE_INVITES;
    }
  }

  lemma WatchedRecorded(p: seq<Item>, it: Item, db: Db)
    requires Watched(it) && it in p && Settled(p, db)
    ensures it.version in db.versions
  {
    var n :| 0 <= n < |p| && p[n] == it;
    assert Done(p[n], db);
  }

  // ---- the laws ----

  const LANGUAGE: Col := Col("language", false, Text("ru"))
  const INVITE_PRIVACY: Col := Col("group_invite_privacy", false, Text("all"))
  const AUTO_LOGOUT: Col := Col("session_auto_logout_seconds", false, Number(MONTH))
  const CREATED_AT: Col := Col("created_at", true, Timestamp)
  const TOTP_SECRET: Col := Col("totp_secret", true, Null)
  const TOTP_ENABLED_AT: Col := Col("totp_enabled_at", true, Null)
  const HIDE_ONLINE: Col := Col("hide_online_status", false, Number(0))

  lemma AccountListed()
    ensures LANGUAGE in UserColumns() && AUTO_LOGOUT in UserColumns() && CREATED_AT in UserColumns()
    ensures TOTP_SECRET in UserColumns() && TOTP_ENABLED_AT in UserColumns()
  {
    var cols := AccountColumns();
    assert cols[5] == LANGUAGE && cols[7] == AUTO_LOGOUT && cols[8] == CREATED_AT;
    assert cols[1] == TOTP_SECRET && cols[2] == TOTP_ENABLED_AT;
    hide ProfileColumns, ChoiceColumns, AccountColumns;
  }

  lemma InviteListed()
    ensures INVITE_PRIVACY in UserColumns() && HIDE_ONLINE in UserColumns()
  {
    assert ChoiceColumns()[2] == INVITE_PRIVACY && ProfileColumns()[4] == HIDE_ONLINE;
    hide ProfileColumns, ChoiceColumns, AccountColumns;
  }

  predicate Own(it: Item, c: Name) {
    || (it == FILL_CREATED_AT && c == "created_at")
    || (it == NORMALIZE_PROFILES && (c == "language" || c == "totp_enabled_at"))
    || (it == NORMALIZE_INVITES && c == "group_invite_privacy")
    || (it == RESET_AUTO_LOGOUT && c == "session_auto_logout_seconds")
  }

  /** Each of these columns is changed by one step only. */
  lemma OwnIndifferent(it: Item, now: Col)
    requires Watched(it) && Own(it, now.name)
    ensures Indifferent("users", now, Some(ChangeOf(it)))
  {
    hide IsChoice;
    forall u | Known(u) && u != ChangeOf(it)
      ensures FixedBy(u, "users", now)
    {
    }
  }

  /** What a row has after the run: the step changes it, unless the step was recorded before. */
  ghost function Turned(it: Item, db: Db, now: Col, next: Col): Col
    requires Watched(it)
  {
    if it.version in db.versions then now else next
  }

  lemma EnterPhase(db: Db, k: Name, now: Col, next: Col, it: Item)
    requires Watched(it) && Own(it, now.name) && Arrived(db, "users", k, now) && Turns(it, now, next, None)
    ensures Phase(db, k, now, Turned(it, db, now, next), None, it)
    ensures Apart(now, Turned(it, db, now, next), None, it)
    ensures it.version !in db.versions ==> Turns(it, now, Turned(it, db, now, next), None)
  {
    OwnIndifferent(it, now);
    OwnIndifferent(it, next);
    hide Indifferent, Own;
  }

  lemma LeavePhase(p: seq<Item>, b: Backfills, db: Db, k: Name, now: Col, next: Col, it: Item)
    requires Watched(it) && Phase(Migrated(p, b, db), k, now, next, None, it)
    requires it in p && Settled(p, Migrated(p, b, db))
    ensures Ends(p, b, db, "users", k, next)
  {
    hide Migrated;
    WatchedRecorded(p, it, Migrated(p, b, db));
  }

  lemma CompletedParts(p: seq<Item>, b: Backfills, db: Db)
    requires Completed(p, b, db)
    ensures Sparing(b) && AllAtHome(p) && AllShaped(p) && Settled(p, Migrated(p, b, db))
  {
  }

  /** A present column after the whole run: as the step leaves it, unless that was recorded before. */
  lemma StepSettles(p: seq<Item>, b: Backfills, db: Db, k: Name, it: Item, now: Col, next: Col)
    requires Completed(p, b, db) && Arrived(db, "users", k, now)
    requires Watched(it) && it in p && Own(it, now.name) && Turns(it, now, next, None)
    ensures Ends(p, b, db, "users", k, Turned(it, db, now, next))
  {
    hide *;
    var last := Turned(it, db, now, next);
    CompletedParts(p, b, db);
    EnterPhase(db, k, now, next, it);
    RunPhase(p, b, db, k, now, last, None, it);
    LeavePhase(p, b, db, k, now, last, it);
  }

  /** The value in a user's row after a complete run. */
  ghost function Final(p: seq<Item>, b: Backfills, db: Db, k: Name, c: Name): Value {
    var m := Migrated(p, b, db);
    if Has(m, "users", k) then Get(m.data["users"][k], c) else Null
  }

  lemma EndsFinal(p: seq<Item>, b: Backfills, db: Db, k: Name, col: Col)
    requires Ends(p, b, db, "users", k, col)
    ensures Final(p, b, db, k, col.name) == col.value
  {
    hide Migrated;
  }

  ghost function Was(db: Db, k: Name, col: Col): Value
    requires Has(db, "users", k)
  {
    Initial(db, "users", k, col).value
  }

  lemma AddedShape(db: Db, k: Name, col: Col)
    requires Has(db, "users", k) && ("users", col.name) !in db.columns
    ensures Initial(db, "users", k, col) == col && Was(db, k, col) == col.value
    ensures col in UserColumns() ==> col in ColumnsOf("users") && SparedColumn("users", col.name)
  {
    hide UserColumns;
  }

  /** An added column that already holds what its step would leave keeps its default. */
  lemma AddedFinal(base: seq<Stmt>, b: Backfills, db: Db, k: Name, col: Col)
    requires IsBaseSchema(base) && Sparing(b) && Has(db, "users", k)
    requires col in UserColumns() && col.name != "totp_enabled_at" && ("users", col.name) !in db.columns
    ensures Final(RunMigrations(base), b, db, k, col.name) == Was(db, k, col) == col.value
  {
    hide *;
    AddedShape(db, k, col);
    ColumnArrives(base, b, db, "users", k, col);
    EndsFinal(RunMigrations(base), b, db, k, col);
  }

  /** The step makes `v` of the value of its column, in every row that has that value. */
  ghost predicate Makes(it: Item, db: Db, k: Name, col: Col, v: Value)
    requires Has(db, "users", k)
  {
    forall r: Row :: Get(r, col.name) == Was(db, k, col) ==> Get(RowChange(it, r), col.name) == v
  }

  ghost function TurnedValue(it: Item, db: Db, was: Value, v: Value): Value
    requires Watched(it)
  {
    if it.version in db.versions then was else v
  }

  lemma InitialTurns(it: Item, db: Db, k: Name, col: Col, v: Value)
    requires Watched(it) && Has(db, "users", k) && ("users", col.name) in db.columns && Makes(it, db, k, col, v)
    ensures var now := Initial(db, "users", k, col);
            && Arrived(db, "users", k, now) && now.name == col.name
            && Turns(it, now, now.(value := v), None)
            && Turned(it, db, now, now.(value := v)).name == col.name
            && Turned(it, db, now, now.(value := v)).value == TurnedValue(it, db, Was(db, k, col), v)
  {
    hide RowChange;
  }

  /** What one of the steps makes of the value of its column. */
  lemma PresentFinal(base: seq<Stmt>, b: Backfills, db: Db, k: Name, it: Item, col: Col, v: Value)
    requires IsBaseSchema(base) && Sparing(b) && Has(db, "users", k) && ("users", col.name) in db.columns
    requires Watched(it) && Own(it, col.name) && Makes(it, db, k, col, v)
    ensures Final(RunMigrations(base), b, db, k, col.name) == TurnedValue(it, db, Was(db, k, col), v)
  {
    hide *;
    var now := Initial(db, "users", k, col);
    InitialTurns(it, db, k, col, v);
    WatchedContained(base, it);
    ScriptCompletes(base, b, db);
    StepSettles(RunMigrations(base), b, db, k, it, now, now.(value := v));
    EndsFinal(RunMigrations(base), b, db, k, Turned(it, db, now, now.(value := v)));
  }

  lemma LowerDefaults()
    ensures Lower("ru") == "ru" && Lower("all") == "all"
  {
    LowerIdentity("ru");
    LowerIdentity("all");
  }

  /** Migration 16: every language but English, in whatever case, becomes Russian. */
  lemma LanguageSettles(base: seq<Stmt>, b: Backfills, db: Db, k: Name)
    requires IsBaseSchema(base) && Sparing(b) && Has(db, "users", k)
    ensures var was := Was(db, k, LANGUAGE);
            Final(RunMigrations(base), b, db, k, "language")
            == if 16 in db.versions then was else if was.Text? && Lower(was.s) == "en" then Text("en") else Text("ru")
  {
    hide RunMigrations, Sparing, IsBaseSchema, Has, UserColumns, Final;
    AccountListed();
    LowerDefaults();
    if ("users", "language") in db.columns {
      var was := Was(db, k, LANGUAGE);
      PresentFinal(base, b, db, k, NORMALIZE_PROFILES, LANGUAGE,
                   if was.Text? && Lower(was.s) == "en" then Text("en") else Text("ru"));
    } else {
      AddedFinal(base, b, db, k, LANGUAGE);
    }
  }

  /** Migration 17: an unknown invitation privacy becomes "all", a known one is written in lower case. */
  lemma InvitePrivacySettles(base: seq<Stmt>, b: Backfills, db: Db, k: Name)
    requires IsBaseSchema(base) && Sparing(b) && Has(db, "users", k)
    ensures var was := Was(db, k, INVITE_PRIVACY);
            Final(RunMigrations(base), b, db, k, "group_invite_privacy")
            == if 17 in db.versions then was
               else if was.Text? && Lower(was.s) in {"all", "contacts", "nobody"} then Text(Lower(was.s)) else Text("all")
  {
    hide RunMigrations, Sparing, IsBaseSchema, Has, UserColumns, Final;
    InviteListed();
    LowerDefaults();
    if ("users", "group_invite_privacy") in db.columns {
      var was := Was(db, k, INVITE_PRIVACY);
      PresentFinal(base, b, db, k, NORMALIZE_INVITES, INVITE_PRIVACY,
                   if was.Text? && Lower(was.s) in CHOICES then Text(Lower(was.s)) else Text("all"));
    } else {
      AddedFinal(base, b, db, k, INVITE_PRIVACY);
    }
  }

  /** Migration 27: a time that is none of the four choices becomes thirty days. */
  lemma AutoLogoutSettles(base: seq<Stmt>, b: Backfills, db: Db, k: Name)
    requires IsBaseSchema(base) && Sparing(b) && Has(db, "users", k)
    ensures var was := Was(db, k, AUTO_LOGOUT);
            Final(RunMigrations(base), b, db, k, "session_auto_logout_seconds")
            == if 27 in db.versions || (was.Number? && was.n in {604_800, 2_592_000, 7_776_000, 15_552_000}) then was
               else Number(2_592_000)
  {
    hide RunMigrations, Sparing, IsBaseSchema, Has, UserColumns, Final;
    AccountListed();
    if ("users", "session_auto_logout_seconds") in db.columns {
      var was := Was(db, k, AUTO_LOGOUT);
      PresentFinal(base, b, db, k, RESET_AUTO_LOGOUT, AUTO_LOGOUT,
                   if was.Number? && was.n in LOGOUT_CHOICES then was else Number(MONTH));
    } else {
      AddedFinal(base, b, db, k, AUTO_LOGOUT);
    }
  }

  /** Migration 31: a missing date of registration becomes the time of the migration. */
  lemma CreatedAtSettles(base: seq<Stmt>, b: Backfills, db: Db, k: Name)
    requires IsBaseSchema(base) && Sparing(b) && Has(db, "users", k)
    ensures var was := Was(db, k, CREATED_AT);
            Final(RunMigrations(base), b, db, k, "created_at") == if 31 in db.versions || was != Null then was else Timestamp
  {
    hide RunMigrations, Sparing, IsBaseSchema, Has, UserColumns, Final;
    AccountListed();
    if ("users", "created_at") in db.columns {
      var was := Was(db, k, CREATED_AT);
      PresentFinal(base, b, db, k, FILL_CREATED_AT, CREATED_AT, if was == Null then Timestamp else was);
    } else {
      AddedFinal(base, b, db, k, CREATED_AT);
    }
  }
}
