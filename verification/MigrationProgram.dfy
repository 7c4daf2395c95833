/**
 The statements of `run_migrations` in order (app/db/migrations.py:1156-1203), and the proof that a
 failed run of them can be restarted.
 */
module MigrationProgram {
  import opened Migrations
  import opened MigrationRestart

  datatype Col = Col(name: Name, nullable: bool, value: Value)

  function Adds(t: Name, cols: seq<Col>): seq<Stmt> {
    seq(|cols|, k requires 0 <= k < |cols| => AddColumn(t, cols[k].name, cols[k].nullable, cols[k].value))
  }

  function Each(ss: seq<Stmt>): seq<Item> {
    seq(|ss|, k requires 0 <= k < |ss| => Do(ss[k]))
  }

  function Records(vs: seq<nat>): seq<Item> {
    seq(|vs|, k requires 0 <= k < |vs| => Do(Record(vs[k])))
  }

  /** The columns of a new table: those declared NOT NULL, and the others. */
  function Table(t: Name, required: set<Name>, optional: set<Name>): (s: Stmt)
    ensures s.EnsureTable? && s.table == t
  {
    EnsureTable(t, map c | c in required + optional :: c !in required)
  }

  const ALL := Text("all")

  function MessageColumns(): seq<Col> {
    [
      Col("is_edited", true, Number(0)), Col("message_type", true, Text("text")),
      Col("deleted_by_sender", true, Number(0)), Col("deleted_by_receiver", true, Number(0)),
      Col("reply_to_id", true, Null), Col("forward_from_name", true, Null),
      Col("forward_from_user_id", true, Null), Col("edit_count", true, Number(0)),
      Col("is_delivered", false, Number(0)), Col("voice_listened_by_receiver", false, Number(0)),
      Col("read_at", true, Null), Col("call_id", true, Null),
      Col("client_id", true, Null), Col("request_id", true, Null)]
  }

  function ProfileColumns(): seq<Col> {
    [
      Col("display_name", false, Text("")), Col("is_public", false, Number(1)),
      Col("auto_decline_requests", false, Number(0)), Col("mute_dialog_requests", false, Number(0)),
      Col("hide_online_status", false, Number(0)), Col("last_seen_visibility", false, ALL),
      Col("last_seen", true, Null), Col("avatar_url", true, Null), Col("avatar_visibility", true, ALL)]
  }

  function ChoiceColumns(): seq<Col> {
    [
      Col("bio_visibility", false, ALL), Col("forward_link_privacy", false, ALL),
      Col("group_invite_privacy", false, ALL), Col("voice_message_privacy", false, ALL),
      Col("message_privacy", false, ALL), Col("read_receipts_privacy", false, ALL),
      Col("typing_privacy", false, ALL), Col("voice_listened_privacy", false, ALL),
      Col("call_privacy", false, ALL), Col("public_key_search_privacy", false, ALL)]
  }

  function AccountColumns(): seq<Col> {
    [
      Col("is_online", true, Number(0)), Col("totp_secret", true, Null),
      Col("totp_enabled_at", true, Null), Col("login_vault", true, Null),
      Col("bio", false, Text("")), Col("language", false, Text("ru")),
      Col("client_preferences", false, Text("{}")),
      Col("session_auto_logout_seconds", false, Number(MONTH)), Col("created_at", true, Timestamp)]
  }

  function UserColumns(): seq<Col> {
    ProfileColumns() + ChoiceColumns() + AccountColumns()
  }

  function ChatColumns(): seq<Col> {
    [
      Col("chat_type", false, Text("direct")), Col("chat_description", false, Text("")),
      Col("chat_avatar_url", true, Null), Col("created_by_user_id", true, Null),
      Col("group_perm_send_messages", false, Number(1)), Col("group_perm_send_media", false, Number(1)),
      Col("group_perm_add_members", false, Number(0)), Col("group_perm_pin_messages", false, Number(0)),
      Col("group_perm_change_info", false, Number(0)), Col("group_slow_mode_seconds", false, Number(0))]
  }

  function PrivacyColumns(): seq<Col> {
    [
      Col("last_seen_visibility", false, ALL), Col("bio_visibility", false, ALL),
      Col("forward_link_privacy", false, ALL), Col("voice_message_privacy", false, ALL),
      Col("message_privacy", false, ALL), Col("read_receipts_privacy", false, ALL),
      Col("typing_privacy", false, ALL), Col("voice_listened_privacy", false, ALL),
      Col("call_privacy", false, ALL), Col("public_key_search_privacy", false, ALL)]
  }

  function ExtendedColumns(): seq<Col> {
    PrivacyColumns()[5..]
  }

  function CryptoColumns(): seq<Col> {
    [
      Col("x25519_public_key", true, Null), Col("ed25519_public_key", true, Null),
      Col("crypto_version", false, Number(2))]
  }

  function MessagesSchema(): seq<Item> {
    Each(Adds("messages", MessageColumns())) + [
      Do(DropNotNull("messages", "receiver_id")),
      Unless(30, [], [EnsureObject("idx_messages_call_id")], true),
      Unless(36, [], [EnsureObject("idx_messages_sender_request_id")], true)]
  }

  function UsersSchema(): seq<Item> {
    Each(Adds("users", UserColumns())) + [Unless(31, [], [Update(FillCreatedAt)], true)]
  }

  function InviteRequests(): seq<Item> {
    [Do(Table("group_invite_requests", {"id", "chat_id", "inviter_user_id", "invitee_user_id", "status"},
              {"created_at", "responded_at"})),
     Do(EnsureObject("idx_group_invite_requests_invitee_status_created")),
     Do(EnsureObject("idx_group_invite_requests_chat_invitee_status"))]
  }

  function Profiles(): seq<Item> {
    [Unless(16, [], [Update(NormalizeProfiles)], true),
     Unless(17, [], [Update(NormalizeGroupInvites)], true),
     Do(Record(6)),
     Unless(7, [], [Update(SavedChats)], false)]
  }

  function Owners(): seq<Item> {
    [Unless(11, [], [Update(ChatMembers)], false),
     Unless(14, [], [Update(GroupOwners)], false)]
  }

  function Normalizations(): seq<Item> {
    Profiles() + Records([8, 9, 10, 12, 13, 15, 18]) + Owners()
  }

  function FeatureStmts(): seq<Stmt> {
    [
      Table("totp_backup_codes", {"id", "user_id", "code_hash"}, {"used_at", "created_at"}),
      EnsureObject("idx_totp_backup_codes_user_id"), Record(19),
      Table("group_invite_links", {"id", "chat_id", "token", "created_by", "uses_count", "is_active"},
            {"max_uses", "expires_at", "created_at"}),
      EnsureObject("idx_group_invite_links_token"), EnsureObject("idx_group_invite_links_chat_active"), Record(20),
      AddColumn("users", "status_text", false, Text("")), Record(21),
      AddColumn("messages", "expires_at", true, Null), Record(22),
      AddColumn("chats", "auto_delete_seconds", false, Number(0)), Record(23),
      AddColumn("messages", "album_id", true, Null), EnsureObject("idx_messages_album_id"), Record(24)]
  }

  function NewFeatures(): seq<Item> {
    Each(FeatureStmts()) + Each(Adds("users", PrivacyColumns()))
  }

  /** Up to the privacy normalisation, which runs every time. */
  function Early(base: seq<Stmt>): seq<Item> {
    Each(base) + [Item.Commit]
    + MessagesSchema() + UsersSchema() + Each(Adds("chats", ChatColumns()))
    + InviteRequests() + Normalizations() + NewFeatures()
  }

  function SpotifyTables(): seq<Stmt> {
    [
      Table("spotify_tokens", {"user_id", "access_token", "refresh_token", "token_type", "scope", "expires_at"},
            {"created_at", "updated_at"}),
      Table("spotify_now_playing", {"user_id", "is_playing"},
            {"track_name", "artist_name", "album_name", "album_art_url", "spotify_track_url", "progress_ms",
             "duration_ms", "cached_at"})]
  }

  function CallTables(): seq<Stmt> {
    [
      Table("call_sessions", {"call_id", "chat_id", "initiator_id", "call_type", "status"},
            {"started_at", "accepted_at", "ended_at", "duration_sec", "mediasoup_room_id"}),
      EnsureObject("idx_call_sessions_chat_id"), EnsureObject("idx_call_sessions_initiator"),
      EnsureObject("idx_call_sessions_status"),
      Table("call_participants", {"call_id", "user_id", "was_muted", "had_video"}, {"joined_at", "left_at"}),
      EnsureObject("idx_call_participants_user")]
  }

  function CryptoTables(): seq<Stmt> {
    [
      Table("user_signed_prekeys", {"id", "user_id", "prekey_id", "public_key", "signature"}, {"created_at"}),
      EnsureObject("idx_signed_prekeys_user"),
      Table("user_one_time_prekeys", {"id", "user_id", "prekey_id", "public_key"}, {"claimed_at", "created_at"}),
      EnsureObject("idx_one_time_prekeys_user_unclaimed"),
      Table("dr_sessions", {"id", "chat_id", "owner_user_id", "peer_user_id", "session_state"},
            {"created_at", "updated_at"}),
      EnsureObject("idx_dr_sessions_chat_owner"),
      Table("dr_skipped_keys", {"id", "session_id", "dh_public_key", "message_number", "message_key"}, {"created_at"}),
      EnsureObject("idx_dr_skipped_session")]
  }

  function GroupTables(): seq<Stmt> {
    [
      Table("mls_groups", {"id", "chat_id", "group_id", "epoch", "group_state"}, {"created_at", "updated_at"}),
      EnsureObject("idx_mls_groups_chat"),
      Table("mls_key_packages", {"id", "user_id", "key_package_ref", "key_package"}, {"claimed_at", "created_at"}),
      EnsureObject("idx_mls_key_packages_user_unclaimed"),
      Table("mls_pending_messages", {"id", "chat_id", "recipient_user_id", "message_type", "payload"},
            {"created_at", "delivered_at"}),
      EnsureObject("idx_mls_pending_recipient")]
  }

  function Allowlist(settings: Name, allowlist: Name, index: Name): seq<Stmt> {
    [Table(settings, {"key", "value"}, {"updated_by_user_id", "updated_at"}),
     Update(AllowlistSetting(settings)),
     Table(allowlist, {"user_id", "note"}, {"granted_by_user_id", "created_at"}),
     EnsureObject(index)]
  }

  function SpotifyPrivacy(): seq<Stmt> {
    [
      AddColumn("spotify_tokens", "spotify_privacy", false, Text("contacts")),
      AddColumn("spotify_tokens", "hide_explicit", false, Number(0)),
      AddColumn("spotify_now_playing", "track_id", true, Null),
      AddColumn("spotify_now_playing", "is_explicit", false, Number(0))]
  }

  function AuditTriggers(): seq<Stmt> {
    [
      EnsureObject("moderation_audit_log_append_only"), EnsureObject("moderation_audit_log_no_update"),
      EnsureObject("moderation_audit_log_no_delete")]
  }

  function ApnsTables(): seq<Stmt> {
    [
      Table("apns_device_tokens",
            {"id", "user_id", "token", "push_type", "environment", "failure_count", "is_active"},
            {"bundle_id", "device_id", "created_at", "updated_at", "last_success_at", "last_failure_at"}),
      EnsureObject("idx_apns_device_tokens_user_type_active"), EnsureObject("idx_apns_device_tokens_updated_at")]
  }

  function Calls(): seq<Item> {
    [Do(Record(25)),
     Unless(26, [], SpotifyTables(), false),
     Unless(27, [AddColumn("users", "session_auto_logout_seconds", false, Number(MONTH))],
            [Update(ResetAutoLogout)], false),
     Unless(28, [], CallTables(), true),
     Unless(29, [], Allowlist("call_feature_settings", "call_feature_allowlist",
                              "idx_call_feature_allowlist_created"), true)]
  }

  function Keys(): seq<Item> {
    [Unless(32, Adds("users", CryptoColumns()), CryptoTables() + GroupTables(), true),
     Unless(33, SpotifyPrivacy(), [], true),
     Unless(34, Adds("users", ExtendedColumns()), [Update(NormalizeExtendedPrivacy)], true)]
  }

  function Devices(): seq<Item> {
    [Unless(35, [], Allowlist("liquid_glass_feature_settings", "liquid_glass_feature_allowlist",
                              "idx_liquid_glass_feature_allowlist_created"), true),
     Unless(37, [], AuditTriggers(), true),
     Unless(38, [], ApnsTables(), true),
     Item.Commit]
  }

  function Late(): seq<Item> {
    Calls() + Keys() + Devices()
  }

  /** `base` is the script of `ensure_base_schema`. */
  function RunMigrations(base: seq<Stmt>): seq<Item> {
    Early(base) + [Do(Update(NormalizePrivacy))] + Late()
  }

  // ---- it can be restarted ----

  predicate Tame(s: Stmt) {
    && KeepsNullable(s, "messages", "receiver_id")
    && (s.DropNotNull? ==> s.table == "messages" && s.column == "receiver_id")
  }

  /** The base script only creates what is missing, and has `messages.receiver_id` nullable. */
  predicate IsBaseSchema(base: seq<Stmt>) {
    forall k :: 0 <= k < |base| ==> (base[k].EnsureTable? || base[k].EnsureObject?) && Tame(base[k])
  }

  predicate EarlyItem(i: Item) {
    && WellFormed(i)
    && !(i.Do? && i.stmt.Update?)
    && forall k :: 0 <= k < |StmtsOf(i)| ==> Tame(StmtsOf(i)[k])
  }

  predicate LateItem(i: Item) {
    && WellFormed(i)
    && !(i.Do? && i.stmt.Update?)
    && forall k :: 0 <= k < |StmtsOf(i)| ==> Tame(StmtsOf(i)[k]) && KeepsPrivacy(StmtsOf(i)[k])
  }

  predicate AllEarly(p: seq<Item>) {
    forall k :: 0 <= k < |p| ==> EarlyItem(p[k])
  }

  predicate AllLate(p: seq<Item>) {
    forall k :: 0 <= k < |p| ==> LateItem(p[k])
  }

  lemma SplitRestartable(p: seq<Item>, q: seq<Item>)
    requires AllEarly(p) && AllLate(q)
    ensures Restartable(p + [Do(Update(NormalizePrivacy))] + q)
  {
    var r := p + [Do(Update(NormalizePrivacy))] + q;
    forall k | 0 <= k < |r|
      ensures WellFormed(r[k])
      ensures k < |p| ==> EarlyItem(r[k])
      ensures k > |p| ==> LateItem(r[k])
    {
      if k > |p| {
        assert r[k] == q[k - |p| - 1];
      } else if k < |p| {
        assert r[k] == p[k];
      }
    }
    forall k, m | 0 <= k < m < |r|
      ensures KeepsAll(StmtsOf(r[m]), r[k])
    {
      KeepsFrom(r[k], r[m], k >= |p|);
    }
  }

  lemma KeepsFrom(i: Item, j: Item, late: bool)
    requires EarlyItem(i) || LateItem(i) || i == Do(Update(NormalizePrivacy))
    requires EarlyItem(j) || LateItem(j) || j == Do(Update(NormalizePrivacy))
    requires i.Do? && i.stmt.Update? ==> late
    requires late ==> LateItem(j)
    ensures KeepsAll(StmtsOf(j), i)
  {
    if i.Do? && i.stmt.DropNotNull? {
      assert Tame(StmtsOf(i)[0]);
    }
  }

  lemma EachEarly(ss: seq<Stmt>)
    requires forall k :: 0 <= k < |ss| ==> Tame(ss[k]) && !ss[k].Update?
    ensures AllEarly(Each(ss))
  {
  }

  lemma AddsEarly(t: Name, cols: seq<Col>)
    requires t != "messages" || forall k :: 0 <= k < |cols| ==> cols[k].name != "receiver_id"
    ensures AllEarly(Each(Adds(t, cols)))
  {
    EachEarly(Adds(t, cols));
  }

  lemma NamesDiffer()
    ensures forall k :: 0 <= k < |MessageColumns()| ==> MessageColumns()[k].name != "receiver_id"
  {
  }

  lemma MessagesEarly()
    ensures AllEarly(MessagesSchema())
  {
    NamesDiffer();
    hide MessageColumns;
    AddsEarly("messages", MessageColumns());
    hide Adds, Each;
  }

  lemma SchemasEarly()
    ensures AllEarly(MessagesSchema()) && AllEarly(UsersSchema())
    ensures AllEarly(Each(Adds("chats", ChatColumns()))) && AllEarly(InviteRequests())
  {
    MessagesEarly();
    hide MessagesSchema, UserColumns, ChatColumns;
    AddsEarly("users", UserColumns());
    AddsEarly("chats", ChatColumns());
    hide Adds, Each;
  }

  lemma ProfilesEarly()
    ensures AllEarly(Profiles())
  {
  }

  lemma OwnersEarly()
    ensures AllEarly(Owners())
  {
  }

  lemma RecordsEarly(vs: seq<nat>)
    ensures AllEarly(Records(vs))
  {
  }

  lemma NormalizationsEarly()
    ensures AllEarly(Normalizations())
  {
    hide EarlyItem, Profiles, Owners, Records;
    ProfilesEarly();
    RecordsEarly([8, 9, 10, 12, 13, 15, 18]);
    OwnersEarly();
  }

  lemma FeaturesEarly()
    ensures AllEarly(NewFeatures())
  {
    EachEarly(FeatureStmts());
    hide FeatureStmts, Each, Adds;
    AddsEarly("users", PrivacyColumns());
  }

  predicate Fine(s: Stmt) {
    Tame(s) && KeepsPrivacy(s) && !CommitsItself(s)
  }

  predicate AllFine(ss: seq<Stmt>) {
    forall k :: 0 <= k < |ss| ==> Fine(ss[k])
  }

  /** Columns for tables other than `messages`, with a known choice where a privacy column is added. */
  predicate AddsFine(ss: seq<Stmt>) {
    forall k :: 0 <= k < |ss| ==> ss[k].AddColumn? && ss[k].table != "messages" && KeepsPrivacy(ss[k])
  }

  lemma GuardedLate(v: nat, adds: seq<Stmt>, rest: seq<Stmt>, commit: bool)
    requires AddsFine(adds) && AllFine(rest)
    ensures LateItem(Unless(v, adds, rest, commit))
  {
    hide KeepsPrivacy;
    forall k | 0 <= k < |adds + rest + [Record(v)]|
      ensures Tame((adds + rest + [Record(v)])[k]) && KeepsPrivacy((adds + rest + [Record(v)])[k])
    {
      if k == |adds| + |rest| {
        RecordFine(v);
      }
    }
    assert forall k :: 0 <= k < |rest| ==> Fine(rest[k]);
  }

  lemma RecordFine(v: nat)
    ensures Fine(Record(v))
  {
  }

  lemma SpotifyFine()
    ensures AllFine(SpotifyTables())
  {
  }

  lemma CallsFine()
    ensures AllFine(CallTables())
  {
  }

  lemma TriggersFine()
    ensures AllFine(AuditTriggers())
  {
  }

  lemma ApnsFine()
    ensures AllFine(ApnsTables())
  {
  }

  lemma CryptoFine()
    ensures AllFine(CryptoTables())
  {
  }

  lemma GroupsFine()
    ensures AllFine(GroupTables())
  {
  }

  lemma AllowlistFine(settings: Name, allowlist: Name, index: Name)
    requires settings != "messages" && settings != "users" && allowlist != "messages"
    ensures AllFine(Allowlist(settings, allowlist, index))
  {
  }

  lemma ColumnsFine()
    ensures AddsFine([AddColumn("users", "session_auto_logout_seconds", false, Number(MONTH))])
    ensures AddsFine(Adds("users", CryptoColumns())) && AddsFine(SpotifyPrivacy())
    ensures AddsFine(Adds("users", ExtendedColumns()))
  {
  }

  lemma CallsLate()
    ensures AllLate(Calls())
  {
    hide LateItem, AllFine, AddsFine, Fine, CryptoTables, GroupTables, CallTables, SpotifyTables, ApnsTables, AuditTriggers,
      Allowlist, SpotifyPrivacy, CryptoColumns, ExtendedColumns, Adds;
    SpotifyFine();
    CallsFine();
    AllowlistFine("call_feature_settings", "call_feature_allowlist", "idx_call_feature_allowlist_created");
    ColumnsFine();
    RestsFine();
    var p := Calls();
    forall k | 0 <= k < |p| && p[k].Unless?
      ensures LateItem(p[k])
    {
      GuardedLate(p[k].version, p[k].adds, p[k].rest, p[k].commit);
    }
    PlainLate();
  }

  lemma KeysLate()
    ensures AllLate(Keys())
  {
    hide LateItem, AllFine, AddsFine, Fine, CryptoTables, GroupTables, CallTables, SpotifyTables, ApnsTables, AuditTriggers,
      Allowlist, SpotifyPrivacy, CryptoColumns, ExtendedColumns, Adds;
    CryptoFine();
    GroupsFine();
    AppendFine(CryptoTables(), GroupTables());
    ColumnsFine();
    RestsFine();
    var p := Keys();
    forall k | 0 <= k < |p| && p[k].Unless?
      ensures LateItem(p[k])
    {
      GuardedLate(p[k].version, p[k].adds, p[k].rest, p[k].commit);
    }
  }

  lemma DevicesLate()
    ensures AllLate(Devices())
  {
    hide LateItem, AllFine, AddsFine, Fine, CryptoTables, GroupTables, CallTables, SpotifyTables, ApnsTables, AuditTriggers,
      Allowlist, SpotifyPrivacy, CryptoColumns, ExtendedColumns, Adds;
    TriggersFine();
    ApnsFine();
    AllowlistFine("liquid_glass_feature_settings", "liquid_glass_feature_allowlist",
                  "idx_liquid_glass_feature_allowlist_created");
    RestsFine();
    var p := Devices();
    forall k | 0 <= k < |p| && p[k].Unless?
      ensures LateItem(p[k])
    {
      GuardedLate(p[k].version, p[k].adds, p[k].rest, p[k].commit);
    }
    PlainLate();
  }

  lemma AllItemsLate()
    ensures AllLate(Late())
  {
    hide LateItem, Calls, Keys, Devices;
    CallsLate();
    KeysLate();
    DevicesLate();
  }

  lemma AppendFine(p: seq<Stmt>, q: seq<Stmt>)
    requires AllFine(p) && AllFine(q)
    ensures AllFine(p + q)
  {
  }

  lemma RestsFine()
    ensures AllFine([]) && AllFine([Update(ResetAutoLogout)]) && AllFine([Update(NormalizeExtendedPrivacy)])
    ensures AddsFine([])
  {
  }

  lemma PlainLate()
    ensures LateItem(Do(Record(25))) && LateItem(Item.Commit)
  {
  }

  /** Whatever the base script, as long as it only creates what is missing, the program can be restarted. */
  lemma ProgramRestartable(base: seq<Stmt>)
    requires IsBaseSchema(base)
    ensures Restartable(RunMigrations(base))
  {
    hide AllLate, EarlyItem, MessagesSchema, UsersSchema, InviteRequests, Normalizations, NewFeatures, Late, Adds,
      ChatColumns;
    EachEarly(base);
    SchemasEarly();
    NormalizationsEarly();
    FeaturesEarly();
    AllItemsLate();
    CommitEarly();
    SplitRestartable(Early(base), Late());
  }

  lemma CommitEarly()
    ensures EarlyItem(Item.Commit)
  {
  }

  // ---- the theorem ----

  lemma LateEnds()
    ensures Late() != [] && Late()[|Late()| - 1].Commit?
  {
    hide Calls, Keys;
  }

  /**
   However often the migrations failed, and at whatever statement, the next complete run commits the
   database that one complete run would have made of the original; and one more run changes nothing.
   */
  lemma RestartReachesSameDatabase(base: seq<Stmt>, b: Backfills, db: Db, stops: seq<nat>)
    requires IsBaseSchema(base)
    ensures var p := RunMigrations(base);
            var e := Attempts(p, b, db, stops);
            var m := Migrated(p, b, db);
            && Last(Conn(e, e), Trace(p, b, Conn(e, e))) == Conn(m, m)
            && Last(Conn(m, m), Trace(p, b, Conn(m, m))) == Conn(m, m)
  {
    hide Attempts, Migrated, Trace, Restartable, Early, Late;
    var p := RunMigrations(base);
    LateEnds();
    assert p != [] && p[|p| - 1] == Late()[|Late()| - 1];
    ProgramRestartable(base);
    AttemptsConverge(p, b, db, stops);
    MigratedTwice(p, b, db);
    RunCommits(p, b, Attempts(p, b, db, stops));
    RunCommits(p, b, Migrated(p, b, db));
  }

  /** After a complete run every item is done: in particular each privacy column holds a known choice. */
  lemma RunFinishes(base: seq<Stmt>, b: Backfills, db: Db)
    requires IsBaseSchema(base)
    ensures Settled(RunMigrations(base), Migrated(RunMigrations(base), b, db))
    ensures PrivacySettled(Migrated(RunMigrations(base), b, db).data)
  {
    var p := RunMigrations(base);
    var m := Migrated(p, b, db);
    assert Settled(p, m) by {
      hide Migrated, Early, Late;
      ProgramRestartable(base);
      PrefixSettled(p, |p|, b, db);
      assert p[..|p|] == p;
    }
    hide Migrated, Late, Early;
    assert p[|Early(base)|] == Do(Update(NormalizePrivacy));
    assert Done(p[|Early(base)|], m);
  }
}
