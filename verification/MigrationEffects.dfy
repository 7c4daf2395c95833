/**
 What the migrations do to the rows that are there: how one value fares through a whole run.

 `now` is the column as the row has it at the moment; `added` is the column as the script would add it,
 or None when it is known to be there.
 */
module MigrationEffects {
  import opened Common
  import opened Migrations
  import opened MigrationRestart
  import opened MigrationProgram
  import opened MigrationOrder

  ghost predicate Has(db: Db, t: Name, k: Name) {
    t in db.tables && t in db.data && k in db.data[t]
  }

  ghost predicate Holding(db: Db, t: Name, k: Name, now: Col, added: Option<Col>) {
    && Has(db, t, k)
    && if (t, now.name) in db.columns then
         db.columns[(t, now.name)] == now.nullable && Get(db.data[t][k], now.name) == now.value
       else added == Some(now)
  }

  /** The row keeps its values, apart from some columns. */
  ghost predicate Spared(before: Data, after: Data, t: Name, except: set<Name>) {
    t in before ==>
      t in after && forall k :: k in before[t] ==>
        k in after[t] && forall c :: c !in except ==> Get(after[t][k], c) == Get(before[t][k], c)
  }

  const GUESSED: set<Name> := {"chat_type", "created_by_user_id"}

  /** The three backfills write other tables, and of a chat that exists only what kind it is and whose. */
  ghost predicate SparesRows(f: Data -> Data) {
    forall data ::
      Spared(data, f(data), "users", {}) && Spared(data, f(data), "messages", {}) && Spared(data, f(data), "chats", GUESSED)
  }

  ghost predicate Sparing(b: Backfills) {
    SparesRows(b.saved) && SparesRows(b.members) && SparesRows(b.owners)
  }

  predicate SparedColumn(t: Name, c: Name) {
    t == "users" || t == "messages" || (t == "chats" && c !in GUESSED)
  }

  /** The data change leaves a column with this value as it is. */
  predicate FixedBy(u: Change, t: Name, now: Col) {
    match u
    case FillCreatedAt => t == "users" && now.name == "created_at" ==> now.value != Null
    case NormalizeProfiles =>
      t == "users" ==> (now.name == "language" ==> now.value in {Text("en"), Text("ru")})
                       && (now.name == "totp_enabled_at" ==> now.value != Null)
    case NormalizeGroupInvites => t == "users" && now.name == "group_invite_privacy" ==> IsChoice(now.value)
    case NormalizePrivacy => t == "users" && now.name in Privacy() ==> IsChoice(now.value)
    case ResetAutoLogout =>
      t == "users" && now.name == "session_auto_logout_seconds" ==> now.value.Number? && now.value.n in LOGOUT_CHOICES
    case NormalizeExtendedPrivacy => t == "users" && now.name in ExtendedPrivacy() ==> IsChoice(now.value)
    case AllowlistSetting(t') => t' != t
    case SavedChats => SparedColumn(t, now.name)
    case ChatMembers => SparedColumn(t, now.name)
    case GroupOwners => SparedColumn(t, now.name)
  }

  predicate Calm(s: Stmt, t: Name, now: Col, added: Option<Col>) {
    match s
    case AddColumn(t', c, nullable, v) => t' == t && c == now.name && added.Some? ==> Col(c, nullable, v) == added.value
    case DropNotNull(t', c) => t' != t || c != now.name
    case Update(u) => FixedBy(u, t, now)
    case _ => true
  }

  // ---- one statement ----

  /** A missing column is added with its value in every row, and nothing else changes. */
  lemma AddColumnExact(t: Name, c: Name, nullable: bool, v: Value, b: Backfills, db: Db)
    requires (t, c) !in db.columns
    ensures var after := Eff(AddColumn(t, c, nullable, v), b, db);
            && after.columns == db.columns[(t, c) := nullable]
            && after.tables == db.tables && after.objects == db.objects && after.versions == db.versions
            && after.data.Keys == db.data.Keys
            && (forall t' :: t' in db.data && t' != t ==> after.data[t'] == db.data[t'])
            && (t in db.data ==>
                  && after.data[t].Keys == db.data[t].Keys
                  && (forall k :: k in db.data[t] ==> Get(after.data[t][k], c) == v)
                  && forall k, c' :: k in db.data[t] && c' != c ==> Get(after.data[t][k], c') == Get(db.data[t][k], c'))
  {
  }

  /** A new table has exactly the columns declared, and no rows; one that exists stays as it is. */
  lemma EnsureTableExact(t: Name, cols: map<Name, bool>, b: Backfills, db: Db)
    ensures var after := Eff(EnsureTable(t, cols), b, db);
            && (t in db.tables ==> after == db)
            && (t !in db.tables ==>
                  && after.tables == db.tables + {t} && after.data == db.data[t := map[]]
                  && (forall c :: c in cols && (t, c) !in db.columns ==>
                        (t, c) in after.columns && after.columns[(t, c)] == cols[c])
                  && (forall t', c :: (t', c) in after.columns && (t' != t || c !in cols) ==>
                        (t', c) in db.columns && after.columns[(t', c)] == db.columns[(t', c)]))
  {
    var columns := TableColumns(t, cols);
    assert forall c :: c in cols ==> (t, c) in columns;
  }

  /** The column loses its constraint; no data changes. */
  lemma DropNotNullExact(t: Name, c: Name, b: Backfills, db: Db)
    ensures var after := Eff(DropNotNull(t, c), b, db);
            && after.data == db.data && after.columns.Keys == db.columns.Keys
            && ((t, c) in db.columns ==> after.columns[(t, c)])
            && forall x :: x in db.columns && x != (t, c) ==> after.columns[x] == db.columns[x]
  {
  }

  /** A feature that was never set is switched to its allowlist, and nothing else changes. */
  lemma AllowlistExact(t: Name, b: Backfills, data: Data)
    requires t in data
    ensures var after := Changed(AllowlistSetting(t), b, data);
            && after.Keys == data.Keys && (forall t' :: t' in data && t' != t ==> after[t'] == data[t'])
            && (forall k :: k in data[t] ==> k in after[t] && after[t][k] == data[t][k])
            && "allowlist_enabled" in after[t]
            && ("allowlist_enabled" !in data[t] ==> after[t]["allowlist_enabled"] == map["value" := Text("1")])
            && after[t].Keys == data[t].Keys + {"allowlist_enabled"}
  {
  }

  lemma ProfileKeeps(r: Row, now: Col)
    requires Get(r, now.name) == now.value && FixedBy(NormalizeProfiles, "users", now)
    ensures Get(Profile(r), now.name) == now.value
  {
    if now.name == "language" && now.value.Text? {
      LowerFixedLanguage(now.value.s);
    }
  }

  lemma LowerFixedLanguage(s: string)
    requires s == "en" || s == "ru"
    ensures Lower(s) == s
  {
    LowerIdentity(s);
  }

  lemma ChoicesKeep(r: Row, cols: set<Name>, now: Col)
    requires Get(r, now.name) == now.value && (now.name in cols ==> IsChoice(now.value))
    ensures Get(WithChoices(r, cols), now.name) == now.value
  {
    hide Choice, IsChoice;
    if now.name in cols {
      ChoiceIsKnown(r, now.name);
    }
  }

  /** The change, seen from one row. */
  lemma ChangeKeeps(u: Change, b: Backfills, data: Data, t: Name, k: Name, now: Col)
    requires t in data && k in data[t] && Get(data[t][k], now.name) == now.value
    requires FixedBy(u, t, now) && Sparing(b)
    ensures var after := Changed(u, b, data);
            t in after && k in after[t] && Get(after[t][k], now.name) == now.value
  {
    hide Privacy, ExtendedPrivacy, IsChoice, Profile, WithChoices;
    var r := data[t][k];
    match u
    case FillCreatedAt =>
    case NormalizeProfiles => if t == "users" { ProfileKeeps(r, now); }
    case NormalizeGroupInvites => if t == "users" { ChoicesKeep(r, {"group_invite_privacy"}, now); }
    case NormalizePrivacy => if t == "users" { ChoicesKeep(r, Privacy(), now); }
    case ResetAutoLogout =>
    case NormalizeExtendedPrivacy => if t == "users" { ChoicesKeep(r, ExtendedPrivacy(), now); }
    case AllowlistSetting(t') =>
    case SavedChats => assert Spared(data, b.saved(data), t, if t == "chats" then GUESSED else {});
    case ChatMembers => assert Spared(data, b.members(data), t, if t == "chats" then GUESSED else {});
    case GroupOwners => assert Spared(data, b.owners(data), t, if t == "chats" then GUESSED else {});
  }

  lemma ChangeKeepsRow(u: Change, b: Backfills, data: Data, t: Name, k: Name)
    requires t in data && k in data[t] && Sparing(b)
    requires u.SavedChats? || u.ChatMembers? || u.GroupOwners? ==> t in {"users", "messages", "chats"}
    ensures var after := Changed(u, b, data); t in after && k in after[t]
  {
    match u
    case SavedChats => assert Spared(data, b.saved(data), t, if t == "chats" then GUESSED else {});
    case ChatMembers => assert Spared(data, b.members(data), t, if t == "chats" then GUESSED else {});
    case GroupOwners => assert Spared(data, b.owners(data), t, if t == "chats" then GUESSED else {});
    case _ =>
  }

  lemma StmtHolds(s: Stmt, b: Backfills, db: Db, t: Name, k: Name, now: Col, added: Option<Col>)
    requires Holding(db, t, k, now, added) && Calm(s, t, now, added) && Sparing(b)
    ensures Holding(Eff(s, b, db), t, k, now, added)
  {
    hide Sparing, Changed, FixedBy;
    if s.Update? {
      if (t, now.name) in db.columns {
        ChangeKeeps(s.change, b, db.data, t, k, now);
      } else {
        FixedMeansSpared(s.change, t, now);
        ChangeKeepsRow(s.change, b, db.data, t, k);
      }
    }
  }

  lemma FixedMeansSpared(u: Change, t: Name, now: Col)
    requires FixedBy(u, t, now)
    ensures u.SavedChats? || u.ChatMembers? || u.GroupOwners? ==> t in {"users", "messages", "chats"}
  {
  }

  // ---- a run ----

  ghost predicate CalmItem(i: Item, t: Name, now: Col, added: Option<Col>) {
    forall m :: 0 <= m < |StmtsOf(i)| ==> Calm(StmtsOf(i)[m], t, now, added)
  }

  lemma {:induction false} StmtsHold(ss: seq<Stmt>, b: Backfills, db: Db, t: Name, k: Name, now: Col, added: Option<Col>)
    requires Holding(db, t, k, now, added) && Sparing(b)
    requires forall m :: 0 <= m < |ss| ==> Calm(ss[m], t, now, added)
    ensures Holding(EffAll(ss, b, db), t, k, now, added)
    decreases |ss|
  {
    hide Holding, Calm, Sparing, Eff;
    if ss != [] {
      StmtHolds(ss[0], b, db, t, k, now, added);
      StmtsHold(ss[1..], b, Eff(ss[0], b, db), t, k, now, added);
    }
  }

  lemma ItemHolds(i: Item, b: Backfills, db: Db, t: Name, k: Name, now: Col, added: Option<Col>)
    requires Holding(db, t, k, now, added) && Sparing(b) && CalmItem(i, t, now, added)
    ensures Holding(EffItem(i, b, db), t, k, now, added)
  {
    hide Holding, Calm, Sparing, Eff, EffAll;
    match i
    case Do(s) => assert StmtsOf(i)[0] == s; StmtHolds(s, b, db, t, k, now, added);
    case Commit =>
    case Unless(v, adds, rest, _) =>
      var ss := StmtsOf(i);
      assert forall m :: 0 <= m < |adds| ==> ss[m] == adds[m];
      assert forall m :: 0 <= m < |rest| + 1 ==> ss[|adds| + m] == (rest + [Record(v)])[m];
      StmtsHold(adds, b, db, t, k, now, added);
      StmtsHold(rest + [Record(v)], b, EffAll(adds, b, db), t, k, now, added);
  }

  lemma {:induction false} RunHolds(p: seq<Item>, b: Backfills, db: Db, t: Name, k: Name, now: Col, added: Option<Col>)
    requires Holding(db, t, k, now, added) && Sparing(b)
    requires forall n :: 0 <= n < |p| ==> CalmItem(p[n], t, now, added)
    ensures Holding(Migrated(p, b, db), t, k, now, added)
    decreases |p|
  {
    hide Holding, CalmItem, Sparing, EffItem;
    if p != [] {
      ItemHolds(p[0], b, db, t, k, now, added);
      RunHolds(p[1..], b, EffItem(p[0], b, db), t, k, now, added);
    }
  }

  /** Every data change of the script leaves the column as it is, except perhaps one. */
  ghost predicate Indifferent(t: Name, now: Col, except: Option<Change>) {
    forall u :: Known(u) && Some(u) != except ==> FixedBy(u, t, now)
  }

  ghost predicate Skips(i: Item, except: Option<Change>) {
    forall m :: 0 <= m < |StmtsOf(i)| && StmtsOf(i)[m].Update? ==> Some(StmtsOf(i)[m].change) != except
  }

  /** The column is one of those that the script adds, or needs no default. */
  predicate Expected(t: Name, now: Col, added: Option<Col>) {
    && (t, now.name) != ("messages", "receiver_id")
    && (added.Some? ==> added.value in ColumnsOf(t) && added.value.name == now.name)
  }

  lemma CalmFrom(i: Item, t: Name, now: Col, added: Option<Col>, except: Option<Change>)
    requires AtHome(i) && Skips(i, except) && Indifferent(t, now, except) && Expected(t, now, added)
    ensures CalmItem(i, t, now, added)
  {
    var home := if i.Unless? then Some(i.version) else None;
    forall m | 0 <= m < |StmtsOf(i)|
      ensures Calm(StmtsOf(i)[m], t, now, added)
    {
      var s := StmtsOf(i)[m];
      assert AtHomeStmt(s, home);
      hide FixedBy, Listed, ColumnsOf;
      if s.AddColumn? && s.table == t && s.column == now.name && added.Some? {
        ListedAgrees(t, added.value, Col(s.column, s.nullable, s.value));
      }
    }
  }

  /** A column that no data change of the run touches has the value it had, or the default it got. */
  lemma RunLeaves(p: seq<Item>, b: Backfills, db: Db, t: Name, k: Name, now: Col, added: Option<Col>, except: Option<Change>)
    requires Holding(db, t, k, now, added) && Sparing(b)
    requires AllAtHome(p) && Indifferent(t, now, except) && Expected(t, now, added)
    requires forall n :: 0 <= n < |p| ==> Skips(p[n], except)
    ensures Holding(Migrated(p, b, db), t, k, now, added)
  {
    hide Holding, Sparing, AtHome, Indifferent, Expected, Skips, CalmItem;
    forall n | 0 <= n < |p|
      ensures CalmItem(p[n], t, now, added)
    {
      CalmFrom(p[n], t, now, added, except);
    }
    RunHolds(p, b, db, t, k, now, added);
  }
}
