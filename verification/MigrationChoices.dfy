/**
 The normalisations that look at two columns of a row, or that every run repeats: two-factor dates and
 the privacy choices.
 */
module MigrationChoices {
  import opened Common
  import opened Migrations
  import opened MigrationRestart
  import opened MigrationProgram
  import opened MigrationOrder
  import opened MigrationEffects
  import opened MigrationValues
  import opened MigrationNormalized

  // ---- the first part of the script ----

  /** The only data change is the one of step 31. */
  predicate FillsOnly(i: Item) {
    && (forall m :: 0 <= m < |StmtsOf(i)| && StmtsOf(i)[m].Update? ==> StmtsOf(i)[m].change == FillCreatedAt)
    && (i.Unless? ==> i.version in {30, 31, 36})
  }

  predicate AllFillsOnly(p: seq<Item>) {
    forall n :: 0 <= n < |p| ==> FillsOnly(p[n])
  }

  lemma FillsAppend(p: seq<Item>, q: seq<Item>)
    requires AllFillsOnly(p) && AllFillsOnly(q)
    ensures AllFillsOnly(p + q)
  {
    hide FillsOnly;
  }

  lemma EachFills(ss: seq<Stmt>)
    requires forall m :: 0 <= m < |ss| ==> !ss[m].Update?
    ensures AllFillsOnly(Each(ss))
  {
  }

  lemma MessagesFill()
    ensures AllFillsOnly(MessagesSchema())
  {
    EachFills(Adds("messages", MessageColumns()));
    hide MessageColumns, Adds, Each;
  }

  lemma UsersFill()
    ensures AllFillsOnly(UsersSchema())
  {
    EachFills(Adds("users", UserColumns()));
    hide UserColumns, Adds, Each;
  }

  lemma CommitFills()
    ensures AllFillsOnly([Item.Commit])
  {
  }

  lemma SchemasFill(base: seq<Stmt>)
    requires IsBaseSchema(base)
    ensures AllFillsOnly(Schemas(base))
  {
    EachFills(base);
    hide AllFillsOnly, Each, MessagesSchema, UsersSchema;
    CommitFills();
    MessagesFill();
    UsersFill();
    FillsAppend(Each(base), [Item.Commit]);
    FillsAppend(Each(base) + [Item.Commit], MessagesSchema());
    FillsAppend(Each(base) + [Item.Commit] + MessagesSchema(), UsersSchema());
  }

  lemma CalmFills(i: Item, now: Col, added: Option<Col>)
    requires AtHome(i) && FillsOnly(i) && Expected("users", now, added) && now.name != "created_at"
    ensures CalmItem(i, "users", now, added)
  {
    forall m | 0 <= m < |StmtsOf(i)|
      ensures Calm(StmtsOf(i)[m], "users", now, added)
    {
      var s := StmtsOf(i)[m];
      assert AtHomeStmt(s, if i.Unless? then Some(i.version) else None);
      hide Listed, ColumnsOf;
      if s.AddColumn? && s.table == "users" && s.column == now.name && added.Some? {
        ListedAgrees("users", added.value, Col(s.column, s.nullable, s.value));
      }
    }
  }

  /** Of the first part and the rest, what the proofs below use. */
  ghost predicate Parted(p: seq<Item>, q: seq<Item>, r: seq<Item>, b: Backfills, db: Db) {
    var db1 := Migrated(q, b, db);
    && p == q + r
    && AllAtHome(q) && AllFillsOnly(q) && Settled(q, db1)
    && AllAtHome(r) && AllShaped(r) && Settled(r, Migrated(r, b, db1)) && Sparing(b)
    && Migrated(p, b, db) == Migrated(r, b, db1)
  }

  lemma ScriptParted(base: seq<Stmt>, b: Backfills, db: Db)
    requires IsBaseSchema(base) && Sparing(b)
    ensures Parted(RunMigrations(base), Schemas(base), AfterSchemas(), b, db)
  {
    hide Schemas, AfterSchemas, RunMigrations, Migrated, Restartable, AtHome, Shaped, Done, Sparing, AllFillsOnly;
    var p, q, r := RunMigrations(base), Schemas(base), AfterSchemas();
    ProgramParts(base);
    ProgramAtHome(base);
    SchemasFill(base);
    ProgramRestartable(base);
    PrefixSettled(p, |q|, b, db);
    RunFinishes(base, b, db);
    MigratedAppend(q, r, b, db);
    assert p[..|q|] == q;
    assert forall n :: 0 <= n < |q| ==> q[n] == p[n];
    assert forall n :: 0 <= n < |r| ==> r[n] == p[|q| + n];
  }

  /** After the first part the columns are there, with the values or defaults they began with. */
  lemma FirstPart(q: seq<Item>, b: Backfills, db: Db, k: Name, col: Col)
    requires AllAtHome(q) && AllFillsOnly(q) && Settled(q, Migrated(q, b, db)) && Sparing(b)
    requires Has(db, "users", k) && col in UserColumns() && col.name != "created_at"
    requires Do(AddColumn("users", col.name, col.nullable, col.value)) in q
    ensures Arrived(Migrated(q, b, db), "users", k, Initial(db, "users", k, col))
  {
    hide Migrated, AtHome, FillsOnly, Sparing, Settled, UserColumns, Has, Holding, Initial, Expected, CalmItem, Arrived;
    var now := Initial(db, "users", k, col);
    InitiallyHolding(db, "users", k, col);
    UsersColumn(col);
    ColumnExpected("users", col, now);
    forall n | 0 <= n < |q|
      ensures CalmItem(q[n], "users", now, Some(col))
    {
      CalmFills(q[n], now, Some(col));
    }
    RunHolds(q, b, db, "users", k, now, Some(col));
    ColumnPresent(q, Migrated(q, b, db), "users", col);
    HoldingArrived(Migrated(q, b, db), "users", k, now, Some(col));
  }

  lemma UsersColumn(col: Col)
    requires col in UserColumns()
    ensures col in ColumnsOf("users")
  {
  }

  lemma {:induction false} FirstPartVersions(q: seq<Item>, b: Backfills, db: Db, it: Item)
    requires AllAtHome(q) && AllFillsOnly(q) && Watched(it) && it != FILL_CREATED_AT
    ensures it.version in Migrated(q, b, db).versions <==> it.version in db.versions
    decreases |q|
  {
    hide AtHome, EffItem, StmtsOf;
    if q != [] {
      assert FillsOnly(q[0]);
      OtherItem(q[0], it, b, db);
      FirstPartVersions(q[1..], b, EffItem(q[0], b, db), it);
    }
  }

  // ---- two-factor dates ----

  lemma TotpTurns(now: Col, secret: Col)
    requires now.name == "totp_enabled_at" && secret.name == "totp_secret"
    ensures Turns(NORMALIZE_PROFILES, now,
                  now.(value := if secret.value != Null && now.value == Null then Timestamp else now.value), Some(secret))
  {
  }

  lemma TotpPhase(r: seq<Item>, b: Backfills, db: Db, k: Name, now: Col, secret: Col)
    requires AllAtHome(r) && AllShaped(r) && Settled(r, Migrated(r, b, db)) && Sparing(b) && NORMALIZE_PROFILES in r
    requires now.name == "totp_enabled_at" && secret.name == "totp_secret"
    requires Arrived(db, "users", k, now) && Arrived(db, "users", k, secret)
    ensures Ends(r, b, db, "users", k,
                 now.(value := if 16 !in db.versions && secret.value != Null && now.value == Null then Timestamp
                               else now.value))
  {
    var v := if 16 !in db.versions && secret.value != Null && now.value == Null then Timestamp else now.value;
    var next := now.(value := v);
    TotpTurns(now, secret);
    assert 16 in db.versions ==> next == now;
    assert Own(NORMALIZE_PROFILES, now.name) && Own(NORMALIZE_PROFILES, next.name);
    hide Migrated, AtHome, Shaped, Sparing, Indifferent, Turns, Own, RowChange, ChangeOf;
    OwnIndifferent(NORMALIZE_PROFILES, now);
    OwnIndifferent(NORMALIZE_PROFILES, next);
    SecretIndifferent(secret);
    RunPhase(r, b, db, k, now, next, Some(secret), NORMALIZE_PROFILES);
    WatchedRecorded(r, NORMALIZE_PROFILES, Migrated(r, b, db));
  }

  lemma SecretIndifferent(secret: Col)
    requires secret.name == "totp_secret" || secret.name == "hide_online_status"
    ensures Indifferent("users", secret, None)
  {
    hide IsChoice;
  }

  lemma TotpColumns(base: seq<Stmt>)
    ensures Do(AddColumn("users", "totp_secret", true, Null)) in Schemas(base)
    ensures Do(AddColumn("users", "totp_enabled_at", true, Null)) in Schemas(base)
    ensures TOTP_SECRET in UserColumns() && TOTP_ENABLED_AT in UserColumns()
  {
    AccountListed();
    hide UserColumns, Schemas;
    SchemasContain(base, "users", TOTP_SECRET);
    SchemasContain(base, "users", TOTP_ENABLED_AT);
  }

  lemma PartedEnds(p: seq<Item>, q: seq<Item>, r: seq<Item>, b: Backfills, db: Db, k: Name, col: Col)
    requires Parted(p, q, r, b, db) && Ends(r, b, Migrated(q, b, db), "users", k, col)
    ensures Final(p, b, db, k, col.name) == col.value
  {
    hide Migrated, AllAtHome, AllFillsOnly, AllShaped, Settled, Sparing;
    EndsFinal(p, b, db, k, col);
  }

  lemma PartedParts(p: seq<Item>, q: seq<Item>, r: seq<Item>, b: Backfills, db: Db)
    requires Parted(p, q, r, b, db)
    ensures AllAtHome(q) && AllFillsOnly(q) && Settled(q, Migrated(q, b, db)) && Sparing(b)
    ensures AllAtHome(r) && AllShaped(r) && Settled(r, Migrated(r, b, Migrated(q, b, db)))
  {
  }

  /** Migration 16: two-factor login that was switched on without a date gets the time of the migration. */
  lemma TotpSettles(base: seq<Stmt>, b: Backfills, db: Db, k: Name)
    requires IsBaseSchema(base) && Sparing(b) && Has(db, "users", k)
    ensures var was := Was(db, k, TOTP_ENABLED_AT);
            Final(RunMigrations(base), b, db, k, "totp_enabled_at")
            == if 16 !in db.versions && Was(db, k, TOTP_SECRET) != Null && was == Null then Timestamp else was
  {
    hide RunMigrations, Schemas, AfterSchemas, Migrated, Parted, Ends, Final, Has, UserColumns, IsBaseSchema, Sparing, Settled,
      AllAtHome, AllShaped, AllFillsOnly, Arrived;
    var p, q, r := RunMigrations(base), Schemas(base), AfterSchemas();
    var db1 := Migrated(q, b, db);
    ScriptParted(base, b, db);
    PartedParts(p, q, r, b, db);
    TotpColumns(base);
    FirstPart(q, b, db, k, TOTP_SECRET);
    FirstPart(q, b, db, k, TOTP_ENABLED_AT);
    FirstPartVersions(q, b, db, NORMALIZE_PROFILES);
    WatchedContained(base, NORMALIZE_PROFILES);
    var now, secret := Initial(db, "users", k, TOTP_ENABLED_AT), Initial(db, "users", k, TOTP_SECRET);
    TotpPhase(r, b, db1, k, now, secret);
    var v := if 16 !in db1.versions && secret.value != Null && now.value == Null then Timestamp else now.value;
    PartedEnds(p, q, r, b, db, k, now.(value := v));
  }

  // ---- privacy choices ----

  /** A known choice in lower case; failing that nobody sees a hidden status, and anybody all else. */
  function ChoiceValue(v: Value, hidden: Value, c: Name): Value {
    if v.Text? && Lower(v.s) in {"all", "contacts", "nobody"} then Text(Lower(v.s))
    else if c == "last_seen_visibility" && hidden == Number(1) then Text("nobody")
    else Text("all")
  }

  lemma ChoiceIsValue(r: Row, c: Name)
    ensures Choice(r, c) == ChoiceValue(Get(r, c), Get(r, "hide_online_status"), c)
  {
  }

  lemma ChoiceValueFixed(v: Value, hidden: Value, c: Name)
    ensures IsChoice(ChoiceValue(v, hidden, c))
    ensures IsChoice(v) ==> ChoiceValue(v, hidden, c) == v
  {
    if IsChoice(v) {
      LowerFixed(v.s);
    }
  }

  /** The row has the value it began with or its normal form, and its hidden status is known. */
  ghost predicate Between(db: Db, k: Name, now: Col, hidden: Col) {
    && Holding(db, "users", k, hidden, None)
    && (Holding(db, "users", k, now, None) || Holding(db, "users", k, Normal(now, hidden), None))
  }

  function Normal(now: Col, hidden: Col): Col {
    now.(value := ChoiceValue(now.value, hidden.value, now.name))
  }

  ghost predicate Choosing(now: Col, hidden: Col) {
    now.name in Privacy() && hidden.name == "hide_online_status"
  }

  lemma PrivacyNames(c: Name)
    requires c in Privacy()
    ensures c !in NORMALIZED && ExtendedPrivacy() <= Privacy()
  {
  }

  /** Apart from the two privacy normalisations nothing changes such a column. */
  lemma ChoiceFixed(u: Change, now: Col)
    requires Known(u) && now.name in Privacy() && !u.NormalizePrivacy? && !u.NormalizeExtendedPrivacy?
    ensures FixedBy(u, "users", now)
  {
    PrivacyNames(now.name);
    hide Privacy, ExtendedPrivacy, IsChoice;
  }

  lemma NormalizedRow(b: Backfills, db: Db, k: Name, now: Col, hidden: Col, u: Change)
    requires Holding(db, "users", k, now, None) && Holding(db, "users", k, hidden, None) && Choosing(now, hidden)
    requires u == NormalizePrivacy || u == NormalizeExtendedPrivacy
    ensures var after := Eff(Update(u), b, db);
            Holding(after, "users", k, now, None) || Holding(after, "users", k, Normal(now, hidden), None)
  {
    hide Privacy, ExtendedPrivacy, Choice, Lower;
    ChoiceIsValue(db.data["users"][k], now.name);
  }

  lemma NormalIdempotent(now: Col, hidden: Col)
    ensures Normal(Normal(now, hidden), hidden) == Normal(now, hidden)
  {
    ChoiceValueFixed(now.value, hidden.value, now.name);
    ChoiceValueFixed(Normal(now, hidden).value, hidden.value, now.name);
  }

  lemma BetweenStmt(s: Stmt, home: Option<nat>, b: Backfills, db: Db, k: Name, now: Col, hidden: Col)
    requires AtHomeStmt(s, home) && Sparing(b) && Between(db, k, now, hidden) && Choosing(now, hidden)
    ensures Between(Eff(s, b, db), k, now, hidden)
  {
    var held := if Holding(db, "users", k, now, None) then now else Normal(now, hidden);
    NormalIdempotent(now, hidden);
    SecretIndifferent(hidden);
    hide Holding, Sparing, Privacy, ChoiceValue, FixedBy, Changed, Eff, Listed;
    StmtHolds(s, b, db, "users", k, hidden, None);
    if s.Update? && (s.change.NormalizePrivacy? || s.change.NormalizeExtendedPrivacy?) {
      NormalizedRow(b, db, k, held, hidden, s.change);
    } else {
      if s.Update? {
        ChoiceFixed(s.change, held);
      }
      StmtHolds(s, b, db, "users", k, held, None);
    }
  }

  lemma {:induction false} BetweenStmts(ss: seq<Stmt>, home: Option<nat>, b: Backfills, db: Db, k: Name, now: Col, hidden: Col)
    requires forall m :: 0 <= m < |ss| ==> AtHomeStmt(ss[m], home)
    requires Sparing(b) && Between(db, k, now, hidden) && Choosing(now, hidden)
    ensures Between(EffAll(ss, b, db), k, now, hidden)
    decreases |ss|
  {
    hide AtHomeStmt, Sparing, Between, Choosing, Eff;
    if ss != [] {
      BetweenStmt(ss[0], home, b, db, k, now, hidden);
      BetweenStmts(ss[1..], home, b, Eff(ss[0], b, db), k, now, hidden);
    }
  }

  lemma BetweenItem(i: Item, b: Backfills, db: Db, k: Name, now: Col, hidden: Col)
    requires AtHome(i) && Sparing(b) && Between(db, k, now, hidden) && Choosing(now, hidden)
    ensures Between(EffItem(i, b, db), k, now, hidden)
  {
    hide AtHomeStmt, Sparing, Between, Choosing, Eff, EffAll;
    var ss := StmtsOf(i);
    match i
    case Do(s) =>
      assert ss[0] == s;
      BetweenStmt(s, None, b, db, k, now, hidden);
    case Commit =>
    case Unless(v, adds, rest, _) =>
      assert forall m :: 0 <= m < |adds| ==> ss[m] == adds[m];
      assert forall m :: 0 <= m < |rest| + 1 ==> ss[|adds| + m] == (rest + [Record(v)])[m];
      BetweenStmts(adds, Some(v), b, db, k, now, hidden);
      BetweenStmts(rest + [Record(v)], Some(v), b, EffAll(adds, b, db), k, now, hidden);
  }

  lemma {:induction false} BetweenRun(p: seq<Item>, b: Backfills, db: Db, k: Name, now: Col, hidden: Col)
    requires AllAtHome(p) && Sparing(b) && Between(db, k, now, hidden) && Choosing(now, hidden)
    ensures Between(Migrated(p, b, db), k, now, hidden)
    decreases |p|
  {
    hide AtHome, Sparing, Between, Choosing, EffItem;
    if p != [] {
      BetweenItem(p[0], b, db, k, now, hidden);
      BetweenRun(p[1..], b, EffItem(p[0], b, db), k, now, hidden);
    }
  }

  /** At the end the value is a known choice, so it is the normal form. */
  lemma BetweenSettled(db: Db, k: Name, now: Col, hidden: Col)
    requires Between(db, k, now, hidden) && Choosing(now, hidden) && PrivacySettled(db.data)
    ensures Arrived(db, "users", k, Normal(now, hidden))
  {
    ChoiceValueFixed(now.value, hidden.value, now.name);
    hide Privacy, IsChoice, ChoiceValue;
    assert IsChoice(Get(db.data["users"][k], now.name));
  }

  lemma ChoicePhase(r: seq<Item>, b: Backfills, db: Db, k: Name, now: Col, hidden: Col)
    requires AllAtHome(r) && Sparing(b) && PrivacySettled(Migrated(r, b, db).data) && Choosing(now, hidden)
    requires Arrived(db, "users", k, now) && Arrived(db, "users", k, hidden)
    ensures Ends(r, b, db, "users", k, Normal(now, hidden))
  {
    hide Migrated, AllAtHome, Sparing, PrivacySettled, Privacy, Normal;
    BetweenRun(r, b, db, k, now, hidden);
    BetweenSettled(Migrated(r, b, db), k, now, hidden);
  }

  lemma ExtendedListed(c: Name)
    requires c in ExtendedPrivacy()
    ensures Col(c, false, ALL) in ChoiceColumns()
  {
    var cols := ChoiceColumns();
    assert cols[5] == Col("read_receipts_privacy", false, ALL) && cols[6] == Col("typing_privacy", false, ALL);
    assert cols[7] == Col("voice_listened_privacy", false, ALL) && cols[8] == Col("call_privacy", false, ALL);
    assert cols[9] == Col("public_key_search_privacy", false, ALL);
    assert forall j :: 0 <= j < |cols| ==> cols[j] in cols;
    hide ChoiceColumns;
  }

  lemma FirstChoiceListed(c: Name)
    requires c in {"bio_visibility", "forward_link_privacy", "voice_message_privacy", "message_privacy"}
    ensures Col(c, false, ALL) in ChoiceColumns()
  {
    var cols := ChoiceColumns();
    assert cols[0] == Col("bio_visibility", false, ALL) && cols[1] == Col("forward_link_privacy", false, ALL);
    assert cols[3] == Col("voice_message_privacy", false, ALL) && cols[4] == Col("message_privacy", false, ALL);
    assert forall j :: 0 <= j < |cols| ==> cols[j] in cols;
    hide ChoiceColumns;
  }

  lemma LastSeenListed()
    ensures Col("last_seen_visibility", false, ALL) in ProfileColumns()
  {
    assert ProfileColumns()[5] == Col("last_seen_visibility", false, ALL);
  }

  /** Each privacy column is added with the choice "all". */
  lemma ChoiceListed(c: Name)
    requires c in Privacy()
    ensures Col(c, false, ALL) in UserColumns()
  {
    hide ProfileColumns, ChoiceColumns, AccountColumns, ExtendedPrivacy;
    LastSeenListed();
    if c in ExtendedPrivacy() {
      ExtendedListed(c);
    } else if c != "last_seen_visibility" {
      FirstChoiceListed(c);
    }
  }

  lemma ChoiceColumnsAdded(base: seq<Stmt>, c: Name)
    requires c in Privacy()
    ensures Col(c, false, ALL) in UserColumns() && HIDE_ONLINE in UserColumns()
    ensures Do(AddColumn("users", c, false, ALL)) in Schemas(base)
    ensures Do(AddColumn("users", "hide_online_status", false, Number(0))) in Schemas(base)
    ensures c != "created_at"
  {
    ChoiceListed(c);
    InviteListed();
    PrivacyNames(c);
    hide UserColumns, Schemas, Privacy;
    SchemasContain(base, "users", Col(c, false, ALL));
    SchemasContain(base, "users", HIDE_ONLINE);
  }

  /**
   Every run: a privacy column ends with the choice it had, in lower case, or with "all"; only who may
   see a status that was hidden becomes "nobody".
   */
  lemma ChoiceSettles(base: seq<Stmt>, b: Backfills, db: Db, k: Name, c: Name)
    requires IsBaseSchema(base) && Sparing(b) && Has(db, "users", k) && c in Privacy()
    ensures Final(RunMigrations(base), b, db, k, c)
         == ChoiceValue(Was(db, k, Col(c, false, ALL)), Was(db, k, HIDE_ONLINE), c)
  {
    hide RunMigrations, Schemas, AfterSchemas, Migrated, Parted, Ends, Final, Has, UserColumns, IsBaseSchema, Sparing, Settled,
      AllAtHome, AllShaped, AllFillsOnly, Arrived, Privacy, PrivacySettled;
    var p, q, r := RunMigrations(base), Schemas(base), AfterSchemas();
    var db1 := Migrated(q, b, db);
    ScriptParted(base, b, db);
    PartedParts(p, q, r, b, db);
    PartedSame(p, q, r, b, db);
    ChoiceColumnsAdded(base, c);
    FirstPart(q, b, db, k, Col(c, false, ALL));
    FirstPart(q, b, db, k, HIDE_ONLINE);
    RunFinishes(base, b, db);
    var now, hidden := Initial(db, "users", k, Col(c, false, ALL)), Initial(db, "users", k, HIDE_ONLINE);
    ChoicePhase(r, b, db1, k, now, hidden);
    PartedEnds(p, q, r, b, db, k, Normal(now, hidden));
  }

  lemma PartedSame(p: seq<Item>, q: seq<Item>, r: seq<Item>, b: Backfills, db: Db)
    requires Parted(p, q, r, b, db)
    ensures Migrated(p, b, db) == Migrated(r, b, Migrated(q, b, db))
  {
  }
}
