/**
 What a complete run of the migrations has recorded and created: all versions, and the tables of every
 step that was not recorded before.
 */
module MigrationTables {
  import opened Common
  import opened Migrations
  import opened MigrationRestart
  import opened MigrationProgram
  import opened MigrationOrder
  import opened MigrationEffects
  import opened MigrationValues

  /** The version that an item records. */
  function Recorded(i: Item): Option<nat> {
    match i
    case Do(s) => if s.Record? then Some(s.version) else None
    case Commit => None
    case Unless(v, _, _, _) => Some(v)
  }

  // ---- the versions ----

  ghost predicate Records(p: seq<Item>, v: nat) {
    exists n :: 0 <= n < |p| && Recorded(p[n]) == Some(v)
  }

  lemma RecordsAppend(p: seq<Item>, q: seq<Item>, v: nat)
    requires Records(p, v) || Records(q, v)
    ensures Records(p + q, v)
  {
    if Records(p, v) {
      var n :| 0 <= n < |p| && Recorded(p[n]) == Some(v);
      assert (p + q)[n] == p[n];
    } else {
      var n :| 0 <= n < |q| && Recorded(q[n]) == Some(v);
      assert (p + q)[|p| + n] == q[n];
    }
  }

  lemma RecordedDone(p: seq<Item>, db: Db, v: nat)
    requires Settled(p, db) && Records(p, v)
    ensures v in db.versions
  {
    var n :| 0 <= n < |p| && Recorded(p[n]) == Some(v);
    assert Done(p[n], db);
  }

  lemma SchemaVersions(base: seq<Stmt>, v: nat)
    requires v in {30, 31, 36}
    ensures Records(Schemas(base), v)
  {
    var m, u := MessagesSchema(), UsersSchema();
    assert Recorded(m[|m| - 2]) == Some(30) && Recorded(m[|m| - 1]) == Some(36) && Recorded(u[|u| - 1]) == Some(31);
    hide MessagesSchema, UsersSchema, Each;
    assert Records(m, v) || Records(u, v);
    if v != 31 {
      RecordsAppend(Each(base) + [Item.Commit], m, v);
    }
    RecordsAppend(Each(base) + [Item.Commit] + m, u, v);
  }

  lemma NormalizationVersions(v: nat)
    requires 6 <= v <= 18
    ensures Records(Normalizations(), v)
  {
    var p, r, o := Profiles(), MigrationProgram.Records([8, 9, 10, 12, 13, 15, 18]), Owners();
    assert Recorded(p[0]) == Some(16) && Recorded(p[1]) == Some(17) && Recorded(p[2]) == Some(6) && Recorded(p[3]) == Some(7);
    assert Recorded(o[0]) == Some(11) && Recorded(o[1]) == Some(14);
    assert Recorded(r[0]) == Some(8) && Recorded(r[1]) == Some(9) && Recorded(r[2]) == Some(10) && Recorded(r[3]) == Some(12);
    assert Recorded(r[4]) == Some(13) && Recorded(r[5]) == Some(15) && Recorded(r[6]) == Some(18);
    hide Profiles, Owners, MigrationProgram.Records;
    assert Records(p, v) || Records(r, v) || Records(o, v);
    if !Records(o, v) {
      RecordsAppend(p, r, v);
    }
    RecordsAppend(p + r, o, v);
  }

  lemma FeatureVersions(v: nat)
    requires 19 <= v <= 24
    ensures Records(NewFeatures(), v)
  {
    var s := FeatureStmts();
    assert s[2] == Record(19) && s[6] == Record(20) && s[8] == Record(21);
    assert s[10] == Record(22) && s[12] == Record(23) && s[15] == Record(24);
    hide FeatureStmts, Adds;
    var f := Each(s);
    assert Recorded(f[2]) == Some(19) && Recorded(f[6]) == Some(20) && Recorded(f[8]) == Some(21);
    assert Recorded(f[10]) == Some(22) && Recorded(f[12]) == Some(23) && Recorded(f[15]) == Some(24);
    assert Records(f, v);
    RecordsAppend(f, Each(Adds("users", PrivacyColumns())), v);
  }

  lemma LateVersions(v: nat)
    requires 25 <= v <= 38 && v !in {30, 31, 36}
    ensures Records(Late(), v)
  {
    hide SpotifyTables, CallTables, Allowlist, CryptoTables, GroupTables, SpotifyPrivacy, AuditTriggers, ApnsTables, Adds,
      CryptoColumns, ExtendedColumns;
    var c, k, d := Calls(), Keys(), Devices();
    assert Recorded(c[0]) == Some(25) && Recorded(c[1]) == Some(26) && Recorded(c[2]) == Some(27);
    assert Recorded(c[3]) == Some(28) && Recorded(c[4]) == Some(29);
    assert Recorded(k[0]) == Some(32) && Recorded(k[1]) == Some(33) && Recorded(k[2]) == Some(34);
    assert Recorded(d[0]) == Some(35) && Recorded(d[1]) == Some(37) && Recorded(d[2]) == Some(38);
    hide Calls, Keys, Devices;
    assert Records(c, v) || Records(k, v) || Records(d, v);
    if !Records(d, v) {
      RecordsAppend(c, k, v);
    }
    RecordsAppend(c + k, d, v);
  }

  lemma ScriptRecords(base: seq<Stmt>, v: nat)
    requires 6 <= v <= 38
    ensures Records(RunMigrations(base), v)
  {
    hide Records, Schemas, Each, Adds, InviteRequests, Normalizations, NewFeatures, Late, ChatColumns;
    ProgramParts(base);
    var p1 := Each(Adds("chats", ChatColumns())) + InviteRequests();
    var p2 := p1 + Normalizations();
    var p3 := p2 + NewFeatures();
    var p4 := p3 + [Do(Update(NormalizePrivacy))];
    if v in {30, 31, 36} {
      SchemaVersions(base, v);
    } else if v >= 25 {
      LateVersions(v);
      RecordsAppend(p4, Late(), v);
    } else {
      if v >= 19 {
        FeatureVersions(v);
      } else {
        NormalizationVersions(v);
        RecordsAppend(p1, Normalizations(), v);
      }
      RecordsAppend(p2, NewFeatures(), v);
      RecordsAppend(p3, [Do(Update(NormalizePrivacy))], v);
      RecordsAppend(p4, Late(), v);
    }
    RecordsAppend(Schemas(base), AfterSchemas(), v);
  }

  /** After a complete run all versions from 6 to 38 are recorded. */
  lemma AllRecorded(base: seq<Stmt>, b: Backfills, db: Db)
    requires IsBaseSchema(base)
    ensures forall v :: 6 <= v <= 38 ==> v in Migrated(RunMigrations(base), b, db).versions
  {
    hide RunMigrations, Migrated, Settled, Records;
    RunFinishes(base, b, db);
    forall v | 6 <= v <= 38
      ensures v in Migrated(RunMigrations(base), b, db).versions
    {
      ScriptRecords(base, v);
      RecordedDone(RunMigrations(base), Migrated(RunMigrations(base), b, db), v);
    }
  }

  // ---- the tables of the guarded steps ----

  const GUARDED: set<nat> := {26, 28, 29, 32, 35, 37, 38}

  /** The steps that create tables, indexes or triggers. */
  function GuardedItem(v: nat): (i: Item)
    ensures i.Unless?
  {
    if v == 26 then Unless(26, [], SpotifyTables(), false)
    else if v == 28 then Unless(28, [], CallTables(), true)
    else if v == 29 then
      Unless(29, [], Allowlist("call_feature_settings", "call_feature_allowlist", "idx_call_feature_allowlist_created"), true)
    else if v == 32 then Unless(32, Adds("users", CryptoColumns()), CryptoTables() + GroupTables(), true)
    else if v == 35 then
      Unless(35, [], Allowlist("liquid_glass_feature_settings", "liquid_glass_feature_allowlist",
                               "idx_liquid_glass_feature_allowlist_created"), true)
    else if v == 37 then Unless(37, [], AuditTriggers(), true)
    else Unless(38, [], ApnsTables(), true)
  }

  ghost predicate Sole(i: Item) {
    Recorded(i).Some? && Recorded(i).value in GUARDED ==> i == GuardedItem(Recorded(i).value)
  }

  ghost predicate AllSole(p: seq<Item>) {
    forall n :: 0 <= n < |p| ==> Sole(p[n])
  }

  lemma SoleAppend(p: seq<Item>, q: seq<Item>)
    requires AllSole(p) && AllSole(q)
    ensures AllSole(p + q)
  {
    hide Sole;
  }

  lemma OtherSole(i: Item)
    requires Recorded(i).None? || Recorded(i).value !in GUARDED
    ensures Sole(i)
  {
  }

  lemma EachSole(ss: seq<Stmt>)
    requires forall m :: 0 <= m < |ss| ==> ss[m].Record? ==> ss[m].version !in GUARDED
    ensures AllSole(Each(ss))
  {
    forall n | 0 <= n < |Each(ss)|
      ensures Sole(Each(ss)[n])
    {
      OtherSole(Each(ss)[n]);
    }
  }

  lemma OthersSole(p: seq<Item>)
    requires forall n :: 0 <= n < |p| ==> Recorded(p[n]).None? || Recorded(p[n]).value !in GUARDED
    ensures AllSole(p)
  {
    hide GuardedItem;
  }

  lemma SchemasSole(base: seq<Stmt>)
    requires IsBaseSchema(base)
    ensures AllSole(Schemas(base))
  {
    hide GuardedItem, MessageColumns, UserColumns;
    EachSole(base);
    EachSole(Adds("messages", MessageColumns()));
    EachSole(Adds("users", UserColumns()));
    hide Adds, Each, Sole;
    SchemaItemsSole();
  }

  lemma SchemaItemsSole()
    ensures Sole(Item.Commit) && Sole(Do(DropNotNull("messages", "receiver_id")))
    ensures Sole(Unless(30, [], [EnsureObject("idx_messages_call_id")], true))
    ensures Sole(Unless(36, [], [EnsureObject("idx_messages_sender_request_id")], true))
    ensures Sole(Unless(31, [], [Update(FillCreatedAt)], true)) && Sole(Do(Update(NormalizePrivacy)))
  {
    hide GuardedItem;
  }

  lemma MiddleSole()
    ensures AllSole(InviteRequests()) && AllSole(Normalizations()) && AllSole(NewFeatures())
    ensures AllSole(Each(Adds("chats", ChatColumns())))
  {
    hide GuardedItem, ChatColumns, PrivacyColumns;
    OthersSole(InviteRequests());
    OthersSole(Normalizations());
    EachSole(FeatureStmts());
    EachSole(Adds("users", PrivacyColumns()));
    EachSole(Adds("chats", ChatColumns()));
    hide AllSole, FeatureStmts, Each, Adds;
    SoleAppend(Each(FeatureStmts()), Each(Adds("users", PrivacyColumns())));
  }

  lemma LateSole()
    ensures AllSole(Late())
  {
    hide SpotifyTables, CallTables, Allowlist, CryptoTables, GroupTables, SpotifyPrivacy, AuditTriggers, ApnsTables, Adds,
      CryptoColumns, ExtendedColumns;
    assert AllSole(Calls()) && AllSole(Keys()) && AllSole(Devices());
    hide Calls, Keys, Devices, AllSole;
    SoleAppend(Calls(), Keys());
    SoleAppend(Calls() + Keys(), Devices());
  }

  lemma ScriptSole(base: seq<Stmt>)
    requires IsBaseSchema(base)
    ensures AllSole(RunMigrations(base))
  {
    hide AllSole, Schemas, Each, Adds, InviteRequests, Normalizations, NewFeatures, Late, ChatColumns;
    ProgramParts(base);
    SchemasSole(base);
    MiddleSole();
    LateSole();
    assert AllSole([Do(Update(NormalizePrivacy))]) by { SchemaItemsSole(); OneSole(Do(Update(NormalizePrivacy))); }
    var p1 := Each(Adds("chats", ChatColumns())) + InviteRequests();
    SoleAppend(Each(Adds("chats", ChatColumns())), InviteRequests());
    SoleAppend(p1, Normalizations());
    SoleAppend(p1 + Normalizations(), NewFeatures());
    SoleAppend(p1 + Normalizations() + NewFeatures(), [Do(Update(NormalizePrivacy))]);
    SoleAppend(p1 + Normalizations() + NewFeatures() + [Do(Update(NormalizePrivacy))], Late());
    SoleAppend(Schemas(base), AfterSchemas());
  }

  lemma OneSole(i: Item)
    requires Sole(i)
    ensures AllSole([i])
  {
    hide Sole;
  }

  /** Statements that create something. */
  predicate Creates(s: Stmt) {
    s.EnsureTable? || s.EnsureObject?
  }

  /** Once the step is recorded, what it creates is there. */
  ghost predicate Created(db: Db, v: nat) {
    v in db.versions ==> forall s :: s in GuardedItem(v).rest && Creates(s) ==> Done(Do(s), db)
  }

  lemma {:induction false} StmtsCreate(ss: seq<Stmt>, s: Stmt, b: Backfills, db: Db)
    requires s in ss && Creates(s)
    ensures Done(Do(s), EffAll(ss, b, db))
    decreases |ss|
  {
    hide Eff;
    if ss[0] == s {
      EffDone(Do(s), b, db);
      DoneKeptAll(Do(s), ss[1..], b, Eff(ss[0], b, db));
    } else {
      StmtsCreate(ss[1..], s, b, Eff(ss[0], b, db));
    }
  }

  /** What no statement records stays unrecorded. */
  lemma {:induction false} NotRecorded(ss: seq<Stmt>, v: nat, b: Backfills, db: Db)
    requires (forall m :: 0 <= m < |ss| ==> ss[m] != Record(v)) && v !in db.versions
    ensures v !in EffAll(ss, b, db).versions
    decreases |ss|
  {
    hide Changed;
    if ss != [] {
      NotRecorded(ss[1..], v, b, Eff(ss[0], b, db));
    }
  }

  /** Items record what they say, and guarded versions only by themselves. */
  lemma ItemRecords(i: Item, v: nat, b: Backfills, db: Db)
    requires AtHome(i) && Recorded(i) != Some(v) && v in GUARDED && v !in db.versions
    ensures v !in EffItem(i, b, db).versions
  {
    hide Changed;
    match i
    case Do(s) =>
    case Commit =>
    case Unless(w, adds, rest, _) =>
      var ss := StmtsOf(i);
      forall m | 0 <= m < |ss|
        ensures ss[m] != Record(v)
      {
        assert AtHomeStmt(ss[m], Some(w));
      }
      assert forall m :: 0 <= m < |adds| ==> ss[m] == adds[m];
      assert forall m :: 0 <= m < |rest| + 1 ==> ss[|adds| + m] == (rest + [Record(w)])[m];
      if w !in db.versions {
        NotRecorded(adds, v, b, db);
        NotRecorded(rest + [Record(w)], v, b, EffAll(adds, b, db));
      }
  }

  lemma CreatedKept(i: Item, v: nat, b: Backfills, db: Db)
    requires v in db.versions && Created(db, v)
    ensures Created(EffItem(i, b, db), v)
  {
    hide EffItem, GuardedItem;
    forall s | s in GuardedItem(v).rest && Creates(s)
      ensures Done(Do(s), EffItem(i, b, db))
    {
      assert KeepsAll(StmtsOf(i), Do(s));
      DoneKeptItem(Do(s), i, b, db);
    }
  }

  lemma ItemCreates(i: Item, v: nat, b: Backfills, db: Db)
    requires AtHome(i) && Sole(i) && v in GUARDED && Created(db, v)
    ensures Created(EffItem(i, b, db), v)
  {
    hide GuardedItem, EffAll, AtHome;
    if v in db.versions {
      CreatedKept(i, v, b, db);
    } else if Recorded(i) != Some(v) {
      ItemRecords(i, v, b, db);
    } else {
      assert i == GuardedItem(v);
      forall s | s in i.rest && Creates(s)
        ensures Done(Do(s), EffItem(i, b, db))
      {
        assert s in i.rest + [Record(i.version)];
        StmtsCreate(i.rest + [Record(i.version)], s, b, EffAll(i.adds, b, db));
      }
    }
  }

  lemma {:induction false} RunCreates(p: seq<Item>, v: nat, b: Backfills, db: Db)
    requires AllAtHome(p) && AllSole(p) && v in GUARDED && Created(db, v)
    ensures Created(Migrated(p, b, db), v)
    decreases |p|
  {
    hide AtHome, Sole, Created, EffItem;
    if p != [] {
      ItemCreates(p[0], v, b, db);
      RunCreates(p[1..], v, b, EffItem(p[0], b, db));
    }
  }

  /** A step that was not recorded before has created its tables, indexes and triggers by the end. */
  lemma StepsCreate(base: seq<Stmt>, b: Backfills, db: Db, v: nat)
    requires IsBaseSchema(base) && v in GUARDED && v !in db.versions
    ensures forall s :: s in GuardedItem(v).rest && Creates(s) ==> Done(Do(s), Migrated(RunMigrations(base), b, db))
  {
    hide RunMigrations, Migrated, AllAtHome, AllSole, GuardedItem;
    ProgramInOrder(base);
    ScriptSole(base);
    AllRecorded(base, b, db);
    RunCreates(RunMigrations(base), v, b, db);
  }

  /** The tables that each step is there for. */
  function TableNames(v: nat): set<Name> {
    if v == 26 then {"spotify_tokens", "spotify_now_playing"}
    else if v == 28 then {"call_sessions", "call_participants"}
    else if v == 29 then {"call_feature_settings", "call_feature_allowlist"}
    else if v == 32 then
      {"user_signed_prekeys", "user_one_time_prekeys", "dr_sessions", "dr_skipped_keys", "mls_groups", "mls_key_packages",
       "mls_pending_messages"}
    else if v == 35 then {"liquid_glass_feature_settings", "liquid_glass_feature_allowlist"}
    else if v == 38 then {"apns_device_tokens"}
    else {}
  }

  ghost predicate Makes(ss: seq<Stmt>, t: Name) {
    exists s :: s in ss && s.EnsureTable? && s.table == t
  }

  lemma CryptoNamed(t: Name)
    requires t in {"user_signed_prekeys", "user_one_time_prekeys", "dr_sessions", "dr_skipped_keys"}
    ensures Makes(CryptoTables(), t)
  {
    var c := CryptoTables();
    assert c[0].table == "user_signed_prekeys" && c[2].table == "user_one_time_prekeys";
    assert c[4].table == "dr_sessions" && c[6].table == "dr_skipped_keys";
    assert forall i :: 0 <= i < |c| ==> c[i] in c;
    hide CryptoTables;
  }

  lemma GroupsNamed(t: Name)
    requires t in {"mls_groups", "mls_key_packages", "mls_pending_messages"}
    ensures Makes(GroupTables(), t)
  {
    var g := GroupTables();
    assert g[0].table == "mls_groups" && g[2].table == "mls_key_packages" && g[4].table == "mls_pending_messages";
    assert forall i :: 0 <= i < |g| ==> g[i] in g;
    hide GroupTables;
  }

  lemma SpotifyNamed(t: Name)
    requires t in {"spotify_tokens", "spotify_now_playing"}
    ensures Makes(SpotifyTables(), t)
  {
    var s := SpotifyTables();
    assert s[0].table == "spotify_tokens" && s[1].table == "spotify_now_playing";
    assert forall i :: 0 <= i < |s| ==> s[i] in s;
    hide SpotifyTables;
  }

  lemma CallsNamed(t: Name)
    requires t in {"call_sessions", "call_participants"}
    ensures Makes(CallTables(), t)
  {
    var s := CallTables();
    assert s[0].table == "call_sessions" && s[4].table == "call_participants";
    assert forall i :: 0 <= i < |s| ==> s[i] in s;
    hide CallTables;
  }

  lemma AllowlistNamed(settings: Name, allowlist: Name, index: Name, t: Name)
    requires t == settings || t == allowlist
    ensures Makes(Allowlist(settings, allowlist, index), t)
  {
    var s := Allowlist(settings, allowlist, index);
    assert s[0].table == settings && s[2].table == allowlist;
    assert forall i :: 0 <= i < |s| ==> s[i] in s;
    hide Allowlist;
  }

  lemma ApnsNamed()
    ensures Makes(ApnsTables(), "apns_device_tokens")
  {
    var s := ApnsTables();
    assert s[0].table == "apns_device_tokens" && s[0] in s;
    hide ApnsTables;
  }

  lemma MakesAppend(p: seq<Stmt>, q: seq<Stmt>, t: Name)
    requires Makes(p, t) || Makes(q, t)
    ensures Makes(p + q, t)
  {
  }

  lemma NamedTables(v: nat, t: Name)
    requires v in GUARDED && t in TableNames(v)
    ensures Makes(GuardedItem(v).rest, t)
  {
    hide Makes, SpotifyTables, CallTables, Allowlist, CryptoTables, GroupTables, AuditTriggers, ApnsTables, Adds,
      CryptoColumns;
    if v == 26 {
      SpotifyNamed(t);
    } else if v == 28 {
      CallsNamed(t);
    } else if v == 29 {
      AllowlistNamed("call_feature_settings", "call_feature_allowlist", "idx_call_feature_allowlist_created", t);
    } else if v == 35 {
      AllowlistNamed("liquid_glass_feature_settings", "liquid_glass_feature_allowlist",
                     "idx_liquid_glass_feature_allowlist_created", t);
    } else if v == 38 {
      ApnsNamed();
    } else if v == 32 {
      KeysNamed(t);
    }
  }

  lemma KeysNamed(t: Name)
    requires t in TableNames(32)
    ensures Makes(CryptoTables() + GroupTables(), t)
  {
    hide Makes, CryptoTables, GroupTables;
    if t in {"mls_groups", "mls_key_packages", "mls_pending_messages"} {
      GroupsNamed(t);
    } else {
      CryptoNamed(t);
    }
    MakesAppend(CryptoTables(), GroupTables(), t);
  }

  /** By name: the tables of each step that was not recorded before are there after a complete run. */
  lemma TablesCreated(base: seq<Stmt>, b: Backfills, db: Db, v: nat, t: Name)
    requires IsBaseSchema(base) && v in GUARDED && v !in db.versions && t in TableNames(v)
    ensures t in Migrated(RunMigrations(base), b, db).tables
  {
    hide RunMigrations, Migrated, GuardedItem, TableNames;
    StepsCreate(base, b, db, v);
    NamedTables(v, t);
    var s :| s in GuardedItem(v).rest && s.EnsureTable? && s.table == t;
    assert Done(Do(s), Migrated(RunMigrations(base), b, db));
  }
}
