/**
 Facts about the statements of `run_migrations`: a column is added with one default wherever the script
 adds it, and each data change stands in one guarded step.
 */
module MigrationOrder {
  import opened Common
  import opened Migrations
  import opened MigrationRestart
  import opened MigrationProgram

  // ---- a column is added with one default only ----

  function ColumnsOf(t: Name): seq<Col> {
    if t == "messages" then MessageColumns()
    else if t == "users" then UserColumns()
    else if t == "chats" then ChatColumns()
    else []
  }

  /** Columns of the same name are the same. */
  ghost predicate Agree(a: seq<Col>, b: seq<Col>) {
    forall i, j :: 0 <= i < |a| && 0 <= j < |b| && a[i].name == b[j].name ==> a[i] == b[j]
  }

  lemma AgreeSplit(a: seq<Col>, b: seq<Col>, c: seq<Col>)
    requires Agree(a, c) && Agree(b, c)
    ensures Agree(a + b, c) && Agree(c, a + b)
  {
  }

  lemma ProfileAgrees()
    ensures Agree(ProfileColumns(), ProfileColumns())
  {
  }

  lemma ProfileChoiceAgree()
    ensures Agree(ProfileColumns(), ChoiceColumns())
  {
  }

  lemma ProfileAccountAgree()
    ensures Agree(ProfileColumns(), AccountColumns())
  {
  }

  lemma ChoiceAgrees()
    ensures Agree(ChoiceColumns(), ChoiceColumns())
  {
  }

  lemma ChoiceAccountAgree()
    ensures Agree(ChoiceColumns(), AccountColumns())
  {
  }

  lemma AccountAgrees()
    ensures Agree(AccountColumns(), AccountColumns())
  {
  }

  lemma MessagesAgree()
    ensures Agree(MessageColumns(), MessageColumns())
    ensures Agree(MessageColumns(), [Col("expires_at", true, Null), Col("album_id", true, Null)])
  {
  }

  lemma ChatsAgree()
    ensures Agree(ChatColumns(), ChatColumns()) && Agree(ChatColumns(), [Col("auto_delete_seconds", false, Number(0))])
  {
  }

  lemma UsersAgree()
    ensures Agree(UserColumns(), UserColumns())
  {
    hide ProfileColumns, ChoiceColumns, AccountColumns;
    var a, b, c := ProfileColumns(), ChoiceColumns(), AccountColumns();
    ProfileAgrees();
    ProfileChoiceAgree();
    ProfileAccountAgree();
    ChoiceAgrees();
    ChoiceAccountAgree();
    AccountAgrees();
    AgreeSplit(a, b, a);
    AgreeSplit(a + b, c, a);
    AgreeSplit(a, b, b);
    AgreeSplit(a + b, c, b);
    AgreeSplit(a, b, c);
    AgreeSplit(a + b, c, c);
    AgreeSplit(a, b, a + b + c);
    AgreeSplit(a + b, c, a + b + c);
  }

  lemma ProfilePrivacyAgree()
    ensures Agree(ProfileColumns(), PrivacyColumns())
  {
  }

  lemma AccountPrivacyAgree()
    ensures Agree(AccountColumns(), PrivacyColumns())
  {
  }

  lemma ChoicePrivacyAgree()
    ensures Agree(ChoiceColumns(), PrivacyColumns())
  {
  }

  function OtherUserColumns(): seq<Col> {
    [Col("status_text", false, Text("")), Col("session_auto_logout_seconds", false, Number(MONTH)),
     Col("x25519_public_key", true, Null), Col("ed25519_public_key", true, Null), Col("crypto_version", false, Number(2))]
  }

  lemma ProfileOthersAgree()
    ensures Agree(ProfileColumns(), OtherUserColumns())
  {
  }

  lemma ChoiceOthersAgree()
    ensures Agree(ChoiceColumns(), OtherUserColumns())
  {
  }

  lemma AccountOthersAgree()
    ensures Agree(AccountColumns(), OtherUserColumns())
  {
  }

  lemma MoreUsersAgree()
    ensures Agree(UserColumns(), PrivacyColumns()) && Agree(UserColumns(), OtherUserColumns())
  {
    hide ProfileColumns, ChoiceColumns, AccountColumns, PrivacyColumns, OtherUserColumns;
    var a, b, c := ProfileColumns(), ChoiceColumns(), AccountColumns();
    ProfilePrivacyAgree();
    AccountPrivacyAgree();
    ChoicePrivacyAgree();
    ProfileOthersAgree();
    ChoiceOthersAgree();
    AccountOthersAgree();
    AgreeSplit(a, b, PrivacyColumns());
    AgreeSplit(a + b, c, PrivacyColumns());
    AgreeSplit(a, b, OtherUserColumns());
    AgreeSplit(a + b, c, OtherUserColumns());
  }

  /** The columns that the script adds besides. */
  function Extras(t: Name): seq<Col> {
    if t == "messages" then [Col("expires_at", true, Null), Col("album_id", true, Null)]
    else if t == "users" then PrivacyColumns() + OtherUserColumns()
    else if t == "chats" then [Col("auto_delete_seconds", false, Number(0))]
    else []
  }

  predicate Listed(t: Name, col: Col) {
    t in {"messages", "users", "chats"} ==> col in ColumnsOf(t) || col in Extras(t)
  }

  lemma TableAgrees(t: Name)
    ensures Agree(ColumnsOf(t), ColumnsOf(t)) && Agree(ColumnsOf(t), Extras(t))
  {
    hide MessageColumns, UserColumns, ChatColumns, PrivacyColumns, OtherUserColumns;
    MessagesAgree();
    ChatsAgree();
    UsersAgree();
    MoreUsersAgree();
    AgreeFlips(UserColumns(), PrivacyColumns());
    AgreeFlips(UserColumns(), OtherUserColumns());
    AgreeSplit(PrivacyColumns(), OtherUserColumns(), UserColumns());
  }

  lemma AgreeFlips(a: seq<Col>, b: seq<Col>)
    requires Agree(a, b)
    ensures Agree(b, a)
  {
  }

  /** So a column of the three tables is the same wherever the script adds it. */
  lemma ListedAgrees(t: Name, col: Col, other: Col)
    requires col in ColumnsOf(t) && Listed(t, other) && other.name == col.name
    ensures other == col
  {
    hide MessageColumns, UserColumns, ChatColumns, Extras, Agree;
    assert t in {"messages", "users", "chats"} by { hide Agree; }
    TableAgrees(t);
    SameInAgreeing(ColumnsOf(t), if other in ColumnsOf(t) then ColumnsOf(t) else Extras(t), col, other);
  }

  lemma SameInAgreeing(a: seq<Col>, b: seq<Col>, x: Col, y: Col)
    requires Agree(a, b) && x in a && y in b && x.name == y.name
    ensures x == y
  {
  }

  // ---- where the data changes are in the script ----

  predicate Known(u: Change) {
    u.AllowlistSetting? ==> u.table == "call_feature_settings" || u.table == "liquid_glass_feature_settings"
  }

  /** The guarded step that a data change belongs to; the privacy normalisation has none. */
  function Home(u: Change): Option<nat> {
    match u
    case FillCreatedAt => Some(31)
    case NormalizeProfiles => Some(16)
    case NormalizeGroupInvites => Some(17)
    case NormalizePrivacy => None
    case ResetAutoLogout => Some(27)
    case NormalizeExtendedPrivacy => Some(34)
    case AllowlistSetting(t) => Some(if t == "call_feature_settings" then 29 else 35)
    case SavedChats => Some(7)
    case ChatMembers => Some(11)
    case GroupOwners => Some(14)
  }

  const HOMES: set<nat> := {7, 11, 14, 16, 17, 27, 29, 31, 34, 35}

  predicate AtHomeStmt(s: Stmt, home: Option<nat>) {
    match s
    case Update(u) => Known(u) && Home(u) == home
    case Record(v) => if home.Some? then v == home.value else v !in HOMES
    case DropNotNull(t, c) => t == "messages" && c == "receiver_id"
    case AddColumn(t, c, nullable, v) => Listed(t, Col(c, nullable, v))
    case _ => true
  }

  /** Its data changes belong to it, and it records no version of another step with a data change. */
  ghost predicate AtHome(i: Item) {
    forall m :: 0 <= m < |StmtsOf(i)| ==> AtHomeStmt(StmtsOf(i)[m], if i.Unless? then Some(i.version) else None)
  }

  ghost predicate AllAtHome(p: seq<Item>) {
    forall n :: 0 <= n < |p| ==> AtHome(p[n])
  }

  const FILL_CREATED_AT: Item := Unless(31, [], [Update(FillCreatedAt)], true)
  const NORMALIZE_PROFILES: Item := Unless(16, [], [Update(NormalizeProfiles)], true)
  const NORMALIZE_INVITES: Item := Unless(17, [], [Update(NormalizeGroupInvites)], true)
  const RESET_AUTO_LOGOUT: Item :=
    Unless(27, [AddColumn("users", "session_auto_logout_seconds", false, Number(MONTH))], [Update(ResetAutoLogout)], false)

  /** The guarded steps whose data change is looked at below are as given here. */
  predicate Shaped(i: Item) {
    i.Unless? ==>
      && (i.version == 31 ==> i == FILL_CREATED_AT)
      && (i.version == 16 ==> i == NORMALIZE_PROFILES)
      && (i.version == 17 ==> i == NORMALIZE_INVITES)
      && (i.version == 27 ==> i == RESET_AUTO_LOGOUT)
  }

  ghost predicate AllShaped(p: seq<Item>) {
    forall n :: 0 <= n < |p| ==> Shaped(p[n])
  }

  ghost predicate InOrder(p: seq<Item>) {
    AllAtHome(p) && AllShaped(p)
  }

  lemma OrderAppend(p: seq<Item>, q: seq<Item>)
    requires InOrder(p) && InOrder(q)
    ensures InOrder(p + q)
  {
    hide AtHome, Shaped;
  }

  lemma EachInOrder(ss: seq<Stmt>)
    requires forall m :: 0 <= m < |ss| ==> AtHomeStmt(ss[m], None)
    ensures InOrder(Each(ss))
  {
    hide Listed;
  }

  ghost predicate AllListed(t: Name, cols: seq<Col>) {
    forall j :: 0 <= j < |cols| ==> Listed(t, cols[j])
  }

  lemma AddsInOrder(t: Name, cols: seq<Col>)
    requires AllListed(t, cols)
    ensures InOrder(Each(Adds(t, cols)))
  {
    hide Listed;
    EachInOrder(Adds(t, cols));
  }

  lemma MessagesInOrder()
    ensures InOrder(MessagesSchema())
  {
    TablesListed();
    hide Listed, AllListed;
    AddsInOrder("messages", MessageColumns());
    hide MessageColumns, Adds, Each;
  }

  lemma TablesListed()
    ensures AllListed("messages", MessageColumns()) && AllListed("users", UserColumns())
    ensures AllListed("chats", ChatColumns())
  {
    hide MessageColumns, UserColumns, ChatColumns;
  }

  lemma UsersInOrder()
    ensures InOrder(UsersSchema())
  {
    TablesListed();
    hide Listed, AllListed;
    AddsInOrder("users", UserColumns());
    hide UserColumns, Adds, Each;
  }

  lemma InvitesInOrder()
    ensures InOrder(InviteRequests())
  {
    hide Listed;
  }

  predicate HomeStmts(ss: seq<Stmt>, v: nat) {
    forall m :: 0 <= m < |ss| ==> AtHomeStmt(ss[m], Some(v))
  }

  lemma GuardedAtHome(v: nat, adds: seq<Stmt>, rest: seq<Stmt>, commit: bool)
    requires HomeStmts(adds, v) && HomeStmts(rest, v)
    ensures AtHome(Unless(v, adds, rest, commit))
  {
    assert AtHomeStmt(Record(v), Some(v));
    hide AtHomeStmt;
  }

  lemma OtherShaped(v: nat, adds: seq<Stmt>, rest: seq<Stmt>, commit: bool)
    requires v !in {16, 17, 27, 31}
    ensures Shaped(Unless(v, adds, rest, commit))
  {
  }

  lemma ChangeAtHome(u: Change)
    requires Known(u) && Home(u).Some?
    ensures HomeStmts([Update(u)], Home(u).value)
  {
  }

  lemma PlainAtHome(s: Stmt)
    requires AtHomeStmt(s, None)
    ensures AtHome(Do(s))
  {
  }

  lemma ProfilesInOrder()
    ensures InOrder(Profiles())
  {
    ChangeAtHome(NormalizeProfiles);
    ChangeAtHome(NormalizeGroupInvites);
    ChangeAtHome(SavedChats);
    PlainAtHome(Record(6));
    hide AtHome, HomeStmts;
    NothingAtHome(16);
    NothingAtHome(17);
    NothingAtHome(7);
    GuardedAtHome(16, [], [Update(NormalizeProfiles)], true);
    GuardedAtHome(17, [], [Update(NormalizeGroupInvites)], true);
    GuardedAtHome(7, [], [Update(SavedChats)], false);
  }

  lemma NothingAtHome(v: nat)
    ensures HomeStmts([], v)
  {
  }

  lemma RecordsInOrder(vs: seq<nat>)
    requires forall m :: 0 <= m < |vs| ==> vs[m] !in HOMES
    ensures InOrder(Records(vs))
  {
    hide Listed;
  }

  lemma OwnersInOrder()
    ensures InOrder(Owners())
  {
    ChangeAtHome(ChatMembers);
    ChangeAtHome(GroupOwners);
    hide AtHome, HomeStmts;
    NothingAtHome(11);
    NothingAtHome(14);
    GuardedAtHome(11, [], [Update(ChatMembers)], false);
    GuardedAtHome(14, [], [Update(GroupOwners)], false);
  }

  lemma NormalizationsInOrder()
    ensures InOrder(Normalizations())
  {
    hide InOrder, Profiles, Owners, Records;
    ProfilesInOrder();
    OwnersInOrder();
    RecordsInOrder([8, 9, 10, 12, 13, 15, 18]);
    OrderAppend(Profiles(), Records([8, 9, 10, 12, 13, 15, 18]));
    OrderAppend(Profiles() + Records([8, 9, 10, 12, 13, 15, 18]), Owners());
  }

  lemma ExtrasListed()
    ensures Listed("messages", Col("expires_at", true, Null)) && Listed("messages", Col("album_id", true, Null))
    ensures Listed("chats", Col("auto_delete_seconds", false, Number(0)))
  {
    var extras := [Col("expires_at", true, Null), Col("album_id", true, Null)];
    assert extras[0] in Extras("messages") && extras[1] in Extras("messages");
  }

  lemma PrivacyListed()
    ensures AllListed("users", PrivacyColumns())
  {
    hide PrivacyColumns, OtherUserColumns;
  }

  lemma OthersListed()
    ensures AllListed("users", OtherUserColumns()) && Listed("users", Col("status_text", false, Text("")))
  {
    var col := OtherUserColumns()[0];
    hide PrivacyColumns;
    assert OtherUserColumns()[0] == Col("status_text", false, Text(""));
  }

  lemma FeatureStmtsAtHome()
    ensures forall m :: 0 <= m < |FeatureStmts()| ==> AtHomeStmt(FeatureStmts()[m], None)
  {
    ExtrasListed();
    OthersListed();
    hide Listed;
  }

  lemma FeaturesInOrder()
    ensures InOrder(NewFeatures())
  {
    hide InOrder, FeatureStmts, PrivacyColumns, Adds, Each, AtHomeStmt;
    FeatureStmtsAtHome();
    EachInOrder(FeatureStmts());
    PrivacyListed();
    AddsInOrder("users", PrivacyColumns());
    OrderAppend(Each(FeatureStmts()), Each(Adds("users", PrivacyColumns())));
  }

  lemma SpotifyAtHome(v: nat)
    ensures HomeStmts(SpotifyTables(), v)
  {
    hide Listed;
  }

  lemma SpotifyPrivacyAtHome(v: nat)
    ensures HomeStmts(SpotifyPrivacy(), v)
  {
    assert forall col :: Listed("spotify_tokens", col) && Listed("spotify_now_playing", col);
    hide Listed;
  }

  lemma CallsAtHome(v: nat)
    ensures HomeStmts(CallTables(), v)
  {
    hide Listed;
  }

  lemma AuditAtHome(v: nat)
    ensures HomeStmts(AuditTriggers(), v)
  {
    hide Listed;
  }

  lemma ApnsAtHome(v: nat)
    ensures HomeStmts(ApnsTables(), v)
  {
    hide Listed;
  }

  lemma CryptoTablesAtHome(v: nat)
    ensures HomeStmts(CryptoTables(), v)
  {
    hide Listed;
  }

  lemma GroupTablesAtHome(v: nat)
    ensures HomeStmts(GroupTables(), v)
  {
    hide Listed;
  }

  lemma AddsAtHome(t: Name, cols: seq<Col>, v: nat)
    requires AllListed(t, cols)
    ensures HomeStmts(Adds(t, cols), v)
  {
    hide Listed;
  }

  lemma CryptoListed()
    ensures AllListed("users", CryptoColumns()) && AllListed("users", ExtendedColumns())
  {
    OthersListed();
    PrivacyListed();
    var others := OtherUserColumns();
    assert CryptoColumns() == others[2..];
    assert forall j :: 0 <= j < |others[2..]| ==> others[2..][j] == others[j + 2];
    hide Listed, PrivacyColumns;
    assert forall j :: 0 <= j < |ExtendedColumns()| ==> ExtendedColumns()[j] == PrivacyColumns()[j + 5];
  }

  lemma KeysAtHome(v: nat)
    ensures HomeStmts(CryptoTables() + GroupTables(), v)
    ensures HomeStmts(Adds("users", CryptoColumns()), v) && HomeStmts(Adds("users", ExtendedColumns()), v)
  {
    CryptoTablesAtHome(v);
    GroupTablesAtHome(v);
    CryptoListed();
    hide CryptoTables, GroupTables, AtHomeStmt, AllListed, Adds, CryptoColumns, ExtendedColumns;
    AddsAtHome("users", CryptoColumns(), v);
    AddsAtHome("users", ExtendedColumns(), v);
  }

  lemma AllowlistAtHome(settings: Name, allowlist: Name, index: Name)
    requires settings == "call_feature_settings" || settings == "liquid_glass_feature_settings"
    ensures HomeStmts(Allowlist(settings, allowlist, index), if settings == "call_feature_settings" then 29 else 35)
  {
  }

  lemma LogoutAtHome()
    ensures HomeStmts([AddColumn("users", "session_auto_logout_seconds", false, Number(MONTH))], 27)
    ensures HomeStmts([Update(ResetAutoLogout)], 27) && HomeStmts([Update(NormalizeExtendedPrivacy)], 34)
  {
  }

  ghost predicate Fits(i: Item) {
    AtHome(i) && Shaped(i)
  }

  lemma GuardedFits(v: nat, adds: seq<Stmt>, rest: seq<Stmt>, commit: bool)
    requires HomeStmts(adds, v) && HomeStmts(rest, v) && v !in {16, 17, 27, 31}
    ensures Fits(Unless(v, adds, rest, commit))
  {
    hide AtHome, HomeStmts;
    GuardedAtHome(v, adds, rest, commit);
  }

  lemma LogoutFits()
    ensures Fits(RESET_AUTO_LOGOUT) && Fits(Do(Record(25)))
  {
    hide AtHome, HomeStmts;
    PlainAtHome(Record(25));
    LogoutAtHome();
    GuardedAtHome(27, RESET_AUTO_LOGOUT.adds, RESET_AUTO_LOGOUT.rest, false);
  }

  lemma CallTablesFit()
    ensures Fits(Unless(26, [], SpotifyTables(), false)) && Fits(Unless(28, [], CallTables(), true))
  {
    hide Fits, HomeStmts, SpotifyTables, CallTables;
    SpotifyAtHome(26);
    CallsAtHome(28);
    NothingAtHome(26);
    NothingAtHome(28);
    GuardedFits(26, [], SpotifyTables(), false);
    GuardedFits(28, [], CallTables(), true);
  }

  lemma CallAllowlistFits()
    ensures Fits(Unless(29, [], Allowlist("call_feature_settings", "call_feature_allowlist",
                                          "idx_call_feature_allowlist_created"), true))
  {
    hide Fits, HomeStmts, Allowlist;
    AllowlistAtHome("call_feature_settings", "call_feature_allowlist", "idx_call_feature_allowlist_created");
    NothingAtHome(29);
    GuardedFits(29, [], Allowlist("call_feature_settings", "call_feature_allowlist",
                                  "idx_call_feature_allowlist_created"), true);
  }

  lemma FitInOrder(p: seq<Item>)
    requires forall n :: 0 <= n < |p| ==> Fits(p[n])
    ensures InOrder(p)
  {
    hide AtHome, Shaped;
  }

  lemma CallsInOrder()
    ensures InOrder(Calls())
  {
    hide Fits, InOrder, SpotifyTables, CallTables, Allowlist;
    LogoutFits();
    CallTablesFit();
    CallAllowlistFits();
    FitInOrder(Calls());
  }

  lemma KeyTablesFit()
    ensures Fits(Unless(32, Adds("users", CryptoColumns()), CryptoTables() + GroupTables(), true))
    ensures Fits(Unless(33, SpotifyPrivacy(), [], true))
  {
    hide Fits, HomeStmts, CryptoTables, GroupTables, SpotifyPrivacy, Adds, CryptoColumns, ExtendedColumns;
    KeysAtHome(32);
    SpotifyPrivacyAtHome(33);
    NothingAtHome(33);
    GuardedFits(32, Adds("users", CryptoColumns()), CryptoTables() + GroupTables(), true);
    GuardedFits(33, SpotifyPrivacy(), [], true);
  }

  lemma ExtendedFits()
    ensures Fits(Unless(34, Adds("users", ExtendedColumns()), [Update(NormalizeExtendedPrivacy)], true))
  {
    hide Fits, HomeStmts, CryptoTables, GroupTables, Adds, CryptoColumns, ExtendedColumns;
    KeysAtHome(34);
    LogoutAtHome();
    GuardedFits(34, Adds("users", ExtendedColumns()), [Update(NormalizeExtendedPrivacy)], true);
  }

  lemma KeysInOrder()
    ensures InOrder(Keys())
  {
    hide Fits, InOrder, CryptoTables, GroupTables, SpotifyPrivacy, Adds, CryptoColumns, ExtendedColumns;
    KeyTablesFit();
    ExtendedFits();
    FitInOrder(Keys());
  }

  lemma CommitAtHome()
    ensures AtHome(Item.Commit)
  {
  }

  lemma CommitFits()
    ensures Fits(Item.Commit)
  {
    CommitAtHome();
  }

  lemma LiquidGlassFits()
    ensures Fits(Unless(35, [], Allowlist("liquid_glass_feature_settings", "liquid_glass_feature_allowlist",
                                          "idx_liquid_glass_feature_allowlist_created"), true))
  {
    hide Fits, HomeStmts, Allowlist;
    AllowlistAtHome("liquid_glass_feature_settings", "liquid_glass_feature_allowlist",
                    "idx_liquid_glass_feature_allowlist_created");
    NothingAtHome(35);
    GuardedFits(35, [], Allowlist("liquid_glass_feature_settings", "liquid_glass_feature_allowlist",
                                  "idx_liquid_glass_feature_allowlist_created"), true);
  }

  lemma DevicesInOrder()
    ensures InOrder(Devices())
  {
    CommitFits();
    hide Fits, InOrder, HomeStmts, AuditTriggers, ApnsTables, Allowlist;
    LiquidGlassFits();
    AuditAtHome(37);
    ApnsAtHome(38);
    NothingAtHome(37);
    NothingAtHome(38);
    GuardedFits(37, [], AuditTriggers(), true);
    GuardedFits(38, [], ApnsTables(), true);
    FitInOrder(Devices());
  }

  lemma BaseAtHome(base: seq<Stmt>)
    requires IsBaseSchema(base)
    ensures forall m :: 0 <= m < |base| ==> AtHomeStmt(base[m], None)
  {
    hide Tame;
  }

  lemma SchemasInOrder(base: seq<Stmt>)
    requires IsBaseSchema(base)
    ensures InOrder(Each(base) + [Item.Commit] + MessagesSchema() + UsersSchema())
  {
    hide InOrder, Each, MessagesSchema, UsersSchema, AtHomeStmt, IsBaseSchema;
    BaseAtHome(base);
    EachInOrder(base);
    CommitInOrder();
    MessagesInOrder();
    UsersInOrder();
    OrderAppend(Each(base), [Item.Commit]);
    OrderAppend(Each(base) + [Item.Commit], MessagesSchema());
    OrderAppend(Each(base) + [Item.Commit] + MessagesSchema(), UsersSchema());
  }

  lemma EarlyInOrder(base: seq<Stmt>)
    requires IsBaseSchema(base)
    ensures InOrder(Early(base))
  {
    hide InOrder, Each, Adds, MessagesSchema, UsersSchema, ChatColumns, InviteRequests, Normalizations, NewFeatures;
    SchemasInOrder(base);
    TablesListed();
    AddsInOrder("chats", ChatColumns());
    InvitesInOrder();
    NormalizationsInOrder();
    FeaturesInOrder();
    var p := Each(base) + [Item.Commit] + MessagesSchema() + UsersSchema();
    var q := p + Each(Adds("chats", ChatColumns()));
    OrderAppend(p, Each(Adds("chats", ChatColumns())));
    OrderAppend(q, InviteRequests());
    OrderAppend(q + InviteRequests(), Normalizations());
    OrderAppend(q + InviteRequests() + Normalizations(), NewFeatures());
  }

  lemma CommitInOrder()
    ensures InOrder([Item.Commit]) && InOrder([Do(Update(NormalizePrivacy))])
  {
  }

  lemma ProgramInOrder(base: seq<Stmt>)
    requires IsBaseSchema(base)
    ensures InOrder(RunMigrations(base))
  {
    hide InOrder, Early, Calls, Keys, Devices;
    EarlyInOrder(base);
    CommitInOrder();
    CallsInOrder();
    KeysInOrder();
    DevicesInOrder();
    OrderAppend(Calls(), Keys());
    OrderAppend(Calls() + Keys(), Devices());
    OrderAppend(Early(base), [Do(Update(NormalizePrivacy))]);
    OrderAppend(Early(base) + [Do(Update(NormalizePrivacy))], Late());
  }
}
