/**
 The migration runner of app/db/migrations.py: guarded statements on one connection, with commits in
 between. Closing the connection without a commit rolls the working copy back.
 */
module Migrations {
  type Name = string

  /** The reading of the clock behind CURRENT_TIMESTAMP is not kept. */
  datatype Value = Null | Number(n: int) | Text(s: string) | Timestamp

  type Row = map<Name, Value>
  type Data = map<Name, map<Name, Row>>    // table, primary key, row

  datatype Db = Db(
    tables: set<Name>,
    columns: map<(Name, Name), bool>,      // (table, column), nullable
    objects: set<Name>,                    // indexes, functions, triggers
    versions: set<nat>,                    // `schema_migrations`
    data: Data)

  // ---- the data changes ----

  datatype Change =
    | FillCreatedAt
    | NormalizeProfiles
    | NormalizeGroupInvites
    | NormalizePrivacy
    | ResetAutoLogout
    | NormalizeExtendedPrivacy
    | AllowlistSetting(table: Name)
    | SavedChats
    | ChatMembers
    | GroupOwners

  /** The three backfills that join several tables are arbitrary functions of all the data. */
  datatype Backfills = Backfills(saved: Data -> Data, members: Data -> Data, owners: Data -> Data)

  function Get(r: Row, c: Name): Value {
    if c in r then r[c] else Null
  }

  function Lower(s: string): (r: string)
    ensures |r| == |s|
  {
    if s == [] then []
    else [if 'A' <= s[0] <= 'Z' then s[0] - 'A' + 'a' else s[0]] + Lower(s[1..])
  }

  const CHOICES: set<string> := {"all", "contacts", "nobody"}

  function ExtendedPrivacy(): set<Name> {
    {"read_receipts_privacy", "typing_privacy", "voice_listened_privacy", "call_privacy", "public_key_search_privacy"}
  }

  function Privacy(): set<Name> {
    ExtendedPrivacy() + {
      "last_seen_visibility", "bio_visibility", "forward_link_privacy", "voice_message_privacy", "message_privacy"}
  }

  const MONTH: int := 30 * 24 * 60 * 60
  const LOGOUT_CHOICES: set<int> := {7 * 24 * 60 * 60, MONTH, 90 * 24 * 60 * 60, 180 * 24 * 60 * 60}

  function Choice(r: Row, c: Name): Value {
    var v := Get(r, c);
    if v.Text? && Lower(v.s) in CHOICES then Text(Lower(v.s))
    else if c == "last_seen_visibility" && Get(r, "hide_online_status") == Number(1) then Text("nobody")
    else Text("all")
  }

  function WithChoices(r: Row, cols: set<Name>): Row {
    r + map c | c in cols :: Choice(r, c)
  }

  function Profile(r: Row): Row {
    var r1 := if Get(r, "totp_secret") == Null || Get(r, "totp_enabled_at") != Null then r
              else r["totp_enabled_at" := Timestamp];
    var v := Get(r, "language");
    r1["language" := if v.Text? && Lower(v.s) == "en" then Text("en") else Text("ru")]
  }

  function AutoLogout(r: Row): Row {
    var v := Get(r, "session_auto_logout_seconds");
    if v.Number? && v.n in LOGOUT_CHOICES then r else r["session_auto_logout_seconds" := Number(MONTH)]
  }

  function EachRow(data: Data, t: Name, f: Row -> Row): Data {
    if t !in data then data else data[t := map k | k in data[t] :: f(data[t][k])]
  }

  function Changed(u: Change, b: Backfills, data: Data): Data {
    match u
    case FillCreatedAt =>
      EachRow(data, "users", r => if Get(r, "created_at") == Null then r["created_at" := Timestamp] else r)
    case NormalizeProfiles => EachRow(data, "users", Profile)
    case NormalizeGroupInvites => EachRow(data, "users", r => WithChoices(r, {"group_invite_privacy"}))
    case NormalizePrivacy => EachRow(data, "users", r => WithChoices(r, Privacy()))
    case ResetAutoLogout => EachRow(data, "users", AutoLogout)
    case NormalizeExtendedPrivacy => EachRow(data, "users", r => WithChoices(r, ExtendedPrivacy()))
    case AllowlistSetting(t) =>
      if t !in data || "allowlist_enabled" in data[t] then data
      else data[t := data[t]["allowlist_enabled" := map["value" := Text("1")]]]
    case SavedChats => b.saved(data)
    case ChatMembers => b.members(data)
    case GroupOwners => b.owners(data)
  }

  // ---- statements ----

  datatype Stmt =
    | EnsureTable(table: Name, columns: map<Name, bool>)
    | EnsureObject(object: Name)
    | AddColumn(table: Name, column: Name, nullable: bool, value: Value)    // checks, alters, commits
    | DropNotNull(table: Name, column: Name)                                // checks, alters, commits
    | Record(version: nat)
    | Update(change: Change)

  /** `Unless` is a guarded step: it adds columns, does the rest and records its version. */
  datatype Item =
    | Do(stmt: Stmt)
    | Commit
    | Unless(version: nat, adds: seq<Stmt>, rest: seq<Stmt>, commit: bool)

  function TableColumns(t: Name, cols: map<Name, bool>): (r: map<(Name, Name), bool>)
    ensures forall c :: c in cols ==> (t, c) in r && r[(t, c)] == cols[c]
    ensures forall p :: p in r ==> p.0 == t && p.1 in cols && r[p] == cols[p.1]
  {
    var keys := set c | c in cols :: (t, c);
    map p | p in keys :: cols[p.1]
  }

  /** What a statement leaves in the working copy. */
  function Eff(s: Stmt, b: Backfills, db: Db): Db {
    match s
    case EnsureTable(t, cols) =>
      if t in db.tables then db
      else db.(tables := db.tables + {t},
               columns := TableColumns(t, cols) + db.columns,
               data := db.data[t := map[]])
    case EnsureObject(o) => db.(objects := db.objects + {o})
    case AddColumn(t, c, nullable, v) =>
      if (t, c) in db.columns then db
      else db.(columns := db.columns[(t, c) := nullable], data := EachRow(db.data, t, r => r[c := v]))
    case DropNotNull(t, c) =>
      if (t, c) !in db.columns || db.columns[(t, c)] then db
      else db.(columns := db.columns[(t, c) := true])
    case Record(v) => db.(versions := db.versions + {v})
    case Update(u) => db.(data := Changed(u, b, db.data))
  }

  /** The statements that commit, when they have anything to do. */
  predicate CommitsItself(s: Stmt) {
    s.AddColumn? || s.DropNotNull?
  }

  predicate HasWork(s: Stmt, db: Db) {
    match s
    case AddColumn(t, c, _, _) => (t, c) !in db.columns
    case DropNotNull(t, c) => (t, c) in db.columns && !db.columns[(t, c)]
    case _ => true
  }

  function EffAll(ss: seq<Stmt>, b: Backfills, db: Db): Db {
    if ss == [] then db else EffAll(ss[1..], b, Eff(ss[0], b, db))
  }

  function EffItem(i: Item, b: Backfills, db: Db): Db {
    match i
    case Do(s) => Eff(s, b, db)
    case Commit => db
    case Unless(v, adds, rest, _) =>
      if v in db.versions then db else EffAll(rest + [Record(v)], b, EffAll(adds, b, db))
  }

  /** What an uninterrupted run makes of a database. */
  function Migrated(p: seq<Item>, b: Backfills, db: Db): Db
    decreases |p|
  {
    if p == [] then db else Migrated(p[1..], b, EffItem(p[0], b, db))
  }

  // ---- a connection, and every state it passes through ----

  datatype Conn = Conn(durable: Db, working: Db)

  function Last(c: Conn, t: seq<Conn>): Conn {
    if t == [] then c else t[|t| - 1]
  }

  function TraceStmt(s: Stmt, b: Backfills, c: Conn): seq<Conn> {
    var after := Eff(s, b, c.working);
    if !HasWork(s, c.working) then []
    else if CommitsItself(s) then [Conn(c.durable, after), Conn(after, after)]
    else [Conn(c.durable, after)]
  }

  function TraceAll(ss: seq<Stmt>, b: Backfills, c: Conn): seq<Conn>
    decreases |ss|
  {
    if ss == [] then []
    else
      var t := TraceStmt(ss[0], b, c);
      t + TraceAll(ss[1..], b, Last(c, t))
  }

  function TraceItem(i: Item, b: Backfills, c: Conn): seq<Conn> {
    match i
    case Do(s) => TraceStmt(s, b, c)
    case Commit => [Conn(c.working, c.working)]
    case Unless(v, adds, rest, commit) =>
      if v in c.working.versions then []
      else
        var t := TraceAll(adds, b, c);
        var u := TraceAll(rest + [Record(v)], b, Last(c, t));
        var w := Last(Last(c, t), u).working;
        t + u + if commit then [Conn(w, w)] else []
  }

  function Trace(p: seq<Item>, b: Backfills, c: Conn): seq<Conn>
    decreases |p|
  {
    if p == [] then []
    else
      var t := TraceItem(p[0], b, c);
      t + Trace(p[1..], b, Last(c, t))
  }

  /** An attempt that stops after `n` of its states; what is not committed is rolled back. */
  function Attempt(p: seq<Item>, b: Backfills, db: Db, n: nat): Db {
    var t := Trace(p, b, Conn(db, db));
    if n == 0 || t == [] then db
    else t[(if n < |t| then n else |t|) - 1].durable
  }

  function Attempts(p: seq<Item>, b: Backfills, db: Db, stops: seq<nat>): Db
    decreases |stops|
  {
    if stops == [] then db else Attempts(p, b, Attempt(p, b, db, stops[0]), stops[1..])
  }

  // ---- the runner ----

  /** `log` is every state the connection has been in since it was opened. */
  class Connection {
    var durable: Db
    var working: Db
    ghost var log: seq<Conn>

    ghost function View(): Conn
      reads this
    {
      Conn(durable, working)
    }

    constructor (db: Db)
      ensures View() == Conn(db, db) && log == []
    {
      durable, working, log := db, db, [];
    }

    method Write(db: Db)
      modifies `working, `log
      ensures working == db && log == old(log) + [View()]
    {
      working := db;
      log := log + [View()];
    }

    method Commit()
      modifies `durable, `log
      ensures View() == Conn(working, working) && log == old(log) + [View()]
    {
      durable := working;
      log := log + [View()];
    }

    method Close()
      modifies `working
      ensures View() == Conn(durable, durable)
    {
      working := durable;
    }

    /** From state `c` and log `past` the connection went through the states of `t` and no others. */
    ghost predicate Passed(c: Conn, past: seq<Conn>, t: seq<Conn>)
      reads this
    {
      log == past + t && View() == Last(c, t)
    }

    /** What is left to do, `u`, completes a run through the states of `t`. */
    ghost predicate Leaves(u: seq<Conn>, c: Conn, past: seq<Conn>, t: seq<Conn>)
      reads this
    {
      log + u == past + t && Last(View(), u) == Last(c, t)
    }

    method AddColumnIfMissing(t: Name, c: Name, nullable: bool, v: Value)
      modifies this
      ensures forall b :: Passed(old(View()), old(log), TraceStmt(AddColumn(t, c, nullable, v), b, old(View())))
    {
      if (t, c) in working.columns { return; }
      Write(working.(columns := working.columns[(t, c) := nullable],
                     data := EachRow(working.data, t, r => r[c := v])));
      Commit();
    }

    method DropNotNullIfSet(t: Name, c: Name)
      modifies this
      ensures forall b :: Passed(old(View()), old(log), TraceStmt(DropNotNull(t, c), b, old(View())))
    {
      if (t, c) !in working.columns { return; }
      if working.columns[(t, c)] { return; }
      Write(working.(columns := working.columns[(t, c) := true]));
      Commit();
    }

    method RecordMigration(v: nat)
      modifies `working, `log
      ensures working == old(working).(versions := old(working).versions + {v})
      ensures log == old(log) + [View()]
    {
      Write(working.(versions := working.versions + {v}));
    }

    method Execute(s: Stmt, b: Backfills)
      modifies this
      ensures Passed(old(View()), old(log), TraceStmt(s, b, old(View())))
    {
      match s
      case AddColumn(t, c, nullable, v) => AddColumnIfMissing(t, c, nullable, v);
      case DropNotNull(t, c) => DropNotNullIfSet(t, c);
      case Record(v) => RecordMigration(v);
      case _ => Write(Eff(s, b, working));
    }

    method ExecuteAll(ss: seq<Stmt>, b: Backfills)
      modifies this
      ensures Passed(old(View()), old(log), TraceAll(ss, b, old(View())))
    {
      hide TraceAll, TraceStmt;
      var i := 0;
      assert ss[0..] == ss;
      while i < |ss|
        invariant 0 <= i <= |ss|
        invariant Leaves(TraceAll(ss[i..], b, View()), old(View()), old(log), TraceAll(ss, b, old(View())))
      {
        TraceAllFrom(ss, i, b, View());
        LastAppend(View(), TraceStmt(ss[i], b, View()), TraceAll(ss[i + 1..], b, Last(View(), TraceStmt(ss[i], b, View()))));
        Execute(ss[i], b);
        i := i + 1;
      }
      TraceAllDone(ss[i..], b, View());
    }

    method RunUnless(i: Item, b: Backfills)
      requires i.Unless?
      modifies this
      ensures Passed(old(View()), old(log), TraceItem(i, b, old(View())))
    {
      hide TraceItem, TraceAll;
      if i.version in working.versions {
        StepSkipped(i, b, View());
        return;
      }
      ExecuteAll(i.adds, b);
      ExecuteAll(i.rest + [Record(i.version)], b);
      if i.commit {
        Commit();
      }
      StepEnds(i, b, old(View()));
    }

    method RunStep(i: Item, b: Backfills)
      modifies this
      ensures Passed(old(View()), old(log), TraceItem(i, b, old(View())))
    {
      match i
      case Do(s) => Execute(s, b);
      case Commit => Commit();
      case Unless(_, _, _, _) => RunUnless(i, b);
    }

    /** An uninterrupted run. */
    method RunMigrations(p: seq<Item>, b: Backfills)
      modifies this
      ensures Passed(old(View()), old(log), Trace(p, b, old(View())))
    {
      hide Trace, TraceItem;
      var i := 0;
      assert p[0..] == p;
      while i < |p|
        invariant 0 <= i <= |p|
        invariant Leaves(Trace(p[i..], b, View()), old(View()), old(log), Trace(p, b, old(View())))
      {
        TraceFrom(p, i, b, View());
        LastAppend(View(), TraceItem(p[i], b, View()), Trace(p[i + 1..], b, Last(View(), TraceItem(p[i], b, View()))));
        RunStep(p[i], b);
        i := i + 1;
      }
      TraceDone(p[i..], b, View());
    }
  }

  lemma TraceAllFrom(ss: seq<Stmt>, i: nat, b: Backfills, c: Conn)
    requires i < |ss|
    ensures var t := TraceStmt(ss[i], b, c);
            TraceAll(ss[i..], b, c) == t + TraceAll(ss[i + 1..], b, Last(c, t))
  {
    assert ss[i..][0] == ss[i] && ss[i..][1..] == ss[i + 1..];
  }

  lemma TraceAllDone(ss: seq<Stmt>, b: Backfills, c: Conn)
    requires ss == []
    ensures TraceAll(ss, b, c) == []
  {
  }

  lemma TraceFrom(p: seq<Item>, i: nat, b: Backfills, c: Conn)
    requires i < |p|
    ensures var t := TraceItem(p[i], b, c);
            Trace(p[i..], b, c) == t + Trace(p[i + 1..], b, Last(c, t))
  {
    hide TraceItem;
    assert p[i..][0] == p[i] && p[i..][1..] == p[i + 1..];
  }

  lemma TraceDone(p: seq<Item>, b: Backfills, c: Conn)
    requires p == []
    ensures Trace(p, b, c) == []
  {
  }

  lemma LastAppend(c: Conn, t: seq<Conn>, u: seq<Conn>)
    ensures Last(c, t + u) == Last(Last(c, t), u)
  {
  }

  lemma StepSkipped(i: Item, b: Backfills, c: Conn)
    requires i.Unless? && i.version in c.working.versions
    ensures TraceItem(i, b, c) == []
  {
  }

  lemma StepEnds(i: Item, b: Backfills, c: Conn)
    requires i.Unless? && i.version !in c.working.versions
    ensures var t := TraceAll(i.adds, b, c);
            var u := TraceAll(i.rest + [Record(i.version)], b, Last(c, t));
            var d := Last(Last(c, t), u);
            var end := if i.commit then Conn(d.working, d.working) else d;
            && TraceItem(i, b, c) == t + u + (if i.commit then [end] else [])
            && Last(c, TraceItem(i, b, c)) == end
  {
    hide TraceAll;
    var t := TraceAll(i.adds, b, c);
    LastAppend(c, t, TraceAll(i.rest + [Record(i.version)], b, Last(c, t)));
  }
}
