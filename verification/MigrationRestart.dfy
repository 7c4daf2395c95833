/**
 Restarting the migrations: a run that fails at any statement, rolled back and started again, ends
 where an uninterrupted run would have ended.
 */
module MigrationRestart {
  import opened Migrations

  // ---- what it takes for a program to be restartable ----

  predicate IsChoice(v: Value) {
    v.Text? && v.s in CHOICES
  }

  ghost predicate PrivacySettled(data: Data) {
    "users" in data ==>
      forall k, c :: k in data["users"] && c in Privacy() ==> IsChoice(Get(data["users"][k], c))
  }

  /** The item finds nothing to do. */
  ghost predicate Done(i: Item, db: Db) {
    match i
    case Do(EnsureTable(t, _)) => t in db.tables
    case Do(EnsureObject(o)) => o in db.objects
    case Do(AddColumn(t, c, _, _)) => (t, c) in db.columns
    case Do(DropNotNull(t, c)) => (t, c) in db.columns ==> db.columns[(t, c)]
    case Do(Record(v)) => v in db.versions
    case Do(Update(_)) => PrivacySettled(db.data)
    case Commit => true
    case Unless(v, _, _, _) => v in db.versions
  }

  predicate KeepsPrivacy(s: Stmt) {
    match s
    case AddColumn(t, c, _, v) => t == "users" && c in Privacy() ==> IsChoice(v)
    case Update(u) => u.NormalizePrivacy? || u.NormalizeExtendedPrivacy? || u.ResetAutoLogout?
                      || (u.AllowlistSetting? && u.table != "users")
    case _ => true
  }

  predicate KeepsNullable(s: Stmt, t: Name, c: Name) {
    match s
    case AddColumn(t', c', nullable, _) => nullable || (t', c') != (t, c)
    case EnsureTable(t', cols) => t' == t && c in cols ==> cols[c]
    case _ => true
  }

  /** Statement `s`, run after item `i`, does not give `i` anything to do again. */
  predicate Keeps(s: Stmt, i: Item) {
    match i
    case Do(DropNotNull(t, c)) => KeepsNullable(s, t, c)
    case Do(Update(_)) => KeepsPrivacy(s)
    case _ => true
  }

  /** Outside the guarded steps the only data change is the privacy normalisation. */
  predicate WellFormed(i: Item) {
    match i
    case Do(s) => s.Update? ==> s.change.NormalizePrivacy?
    case Commit => true
    case Unless(_, adds, rest, _) =>
      (forall k :: 0 <= k < |adds| ==> adds[k].AddColumn?) && (forall k :: 0 <= k < |rest| ==> !CommitsItself(rest[k]))
  }

  function StmtsOf(i: Item): seq<Stmt> {
    match i
    case Do(s) => [s]
    case Commit => []
    case Unless(v, adds, rest, _) => adds + rest + [Record(v)]
  }

  predicate KeepsAll(ss: seq<Stmt>, i: Item) {
    forall k :: 0 <= k < |ss| ==> Keeps(ss[k], i)
  }

  predicate Restartable(p: seq<Item>) {
    && (forall k :: 0 <= k < |p| ==> WellFormed(p[k]))
    && (forall k, m :: 0 <= k < m < |p| ==> KeepsAll(StmtsOf(p[m]), p[k]))
  }

  // ---- one item ----

  lemma {:induction false} LowerFixed(s: string)
    requires s in CHOICES
    ensures Lower(s) == s
  {
    assert forall k :: 0 <= k < |s| ==> 'a' <= s[k] <= 'z';
    LowerIdentity(s);
  }

  lemma {:induction false} LowerIdentity(s: string)
    requires forall k :: 0 <= k < |s| ==> 'a' <= s[k] <= 'z'
    ensures Lower(s) == s
  {
    if s != [] {
      LowerIdentity(s[1..]);
    }
  }

  lemma ChoiceIsKnown(r: Row, c: Name)
    ensures IsChoice(Choice(r, c))
    ensures IsChoice(Get(r, c)) ==> c in r && Choice(r, c) == r[c]
  {
    if IsChoice(Get(r, c)) {
      LowerFixed(Get(r, c).s);
    }
  }

  /** A normalised row has only known choices, and normalising it again changes nothing. */
  lemma PrivacyRow(r: Row, cols: set<Name>)
    ensures forall c :: c in cols ==> IsChoice(Get(WithChoices(r, cols), c))
    ensures (forall c :: c in cols ==> IsChoice(Get(r, c))) ==> WithChoices(r, cols) == r
    ensures forall c :: c !in cols ==> Get(WithChoices(r, cols), c) == Get(r, c)
  {
    hide IsChoice, Choice;
    forall c | c in cols
      ensures IsChoice(Choice(r, c))
      ensures IsChoice(Get(r, c)) ==> c in r && Choice(r, c) == r[c]
    {
      ChoiceIsKnown(r, c);
    }
  }

  lemma EachRowNoop(data: Data, t: Name, f: Row -> Row)
    requires t in data ==> forall k :: k in data[t] ==> f(data[t][k]) == data[t][k]
    ensures EachRow(data, t, f) == data
  {
    if t in data {
      assert (map k | k in data[t] :: f(data[t][k])) == data[t];
      assert data[t := data[t]] == data;
    }
  }

  lemma PrivacyNoop(b: Backfills, data: Data)
    requires PrivacySettled(data)
    ensures Changed(NormalizePrivacy, b, data) == data
  {
    hide Privacy, IsChoice, WithChoices;
    if "users" in data {
      forall k | k in data["users"]
        ensures WithChoices(data["users"][k], Privacy()) == data["users"][k]
      {
        PrivacyRow(data["users"][k], Privacy());
      }
    }
    hide EachRow, PrivacySettled;
    EachRowNoop(data, "users", r => WithChoices(r, Privacy()));
  }

  lemma PrivacyDone(b: Backfills, data: Data)
    ensures PrivacySettled(Changed(NormalizePrivacy, b, data))
  {
    hide Privacy, IsChoice, WithChoices;
    if "users" in data {
      forall k | k in data["users"]
        ensures forall c :: c in Privacy() ==> IsChoice(Get(WithChoices(data["users"][k], Privacy()), c))
      {
        PrivacyRow(data["users"][k], Privacy());
      }
    }
  }

  lemma DoneNoop(i: Item, b: Backfills, db: Db)
    requires WellFormed(i) && Done(i, db)
    ensures EffItem(i, b, db) == db
  {
    hide PrivacySettled, Changed;
    if i.Do? && i.stmt.Update? {
      PrivacyNoop(b, db.data);
    }
  }

  lemma EffDone(i: Item, b: Backfills, db: Db)
    requires WellFormed(i)
    ensures Done(i, EffItem(i, b, db))
  {
    hide PrivacySettled, Changed;
    match i
    case Do(s) =>
      if s.Update? {
        PrivacyDone(b, db.data);
      }
    case Commit =>
    case Unless(v, adds, rest, _) =>
      if v !in db.versions {
        LastRecords(rest, v, b, EffAll(adds, b, db));
      }
  }

  lemma {:induction false} LastRecords(ss: seq<Stmt>, v: nat, b: Backfills, db: Db)
    ensures v in EffAll(ss + [Record(v)], b, db).versions
    decreases |ss|
  {
    if ss != [] {
      assert (ss + [Record(v)])[1..] == ss[1..] + [Record(v)];
      LastRecords(ss[1..], v, b, Eff(ss[0], b, db));
    }
  }

  lemma ExtendedKept(b: Backfills, data: Data)
    requires PrivacySettled(data)
    ensures PrivacySettled(Changed(NormalizeExtendedPrivacy, b, data))
  {
    hide Privacy, ExtendedPrivacy, IsChoice, WithChoices;
    if "users" in data {
      forall k, c | k in data["users"] && c in Privacy()
        ensures IsChoice(Get(WithChoices(data["users"][k], ExtendedPrivacy()), c))
      {
        PrivacyRow(data["users"][k], ExtendedPrivacy());
      }
    }
  }

  lemma LogoutKept(b: Backfills, data: Data)
    requires PrivacySettled(data)
    ensures PrivacySettled(Changed(ResetAutoLogout, b, data))
  {
    hide Privacy, AutoLogout, IsChoice;
    if "users" in data {
      forall k, c | k in data["users"] && c in Privacy()
        ensures IsChoice(Get(AutoLogout(data["users"][k]), c))
      {
        LogoutRow(data["users"][k], c);
      }
    }
  }

  lemma LogoutRow(r: Row, c: Name)
    requires c in Privacy()
    ensures Get(AutoLogout(r), c) == Get(r, c)
  {
    assert c != "session_auto_logout_seconds";
  }

  lemma ColumnKept(data: Data, t: Name, column: Name, v: Value)
    requires PrivacySettled(data)
    requires t == "users" && column in Privacy() ==> IsChoice(v)
    ensures PrivacySettled(EachRow(data, t, r => r[column := v]))
  {
    hide Privacy, IsChoice;
    if t == "users" && "users" in data {
      forall k, c | k in data["users"] && c in Privacy()
        ensures IsChoice(Get(data["users"][k][column := v], c))
      {
        assert IsChoice(Get(data["users"][k], c));
      }
    }
  }

  /** Changes of other tables do not matter, and a new table has no rows. */
  lemma OtherTableKept(before: Data, after: Data)
    requires PrivacySettled(before)
    requires "users" in after ==> after["users"] == map[] || ("users" in before && after["users"] == before["users"])
    ensures PrivacySettled(after)
  {
  }

  lemma PrivacyKept(s: Stmt, b: Backfills, db: Db)
    requires PrivacySettled(db.data) && KeepsPrivacy(s)
    ensures PrivacySettled(Eff(s, b, db).data)
  {
    hide PrivacySettled, IsChoice, Privacy;
    match s
    case Update(NormalizePrivacy) => PrivacyDone(b, db.data);
    case Update(NormalizeExtendedPrivacy) => ExtendedKept(b, db.data);
    case Update(ResetAutoLogout) => LogoutKept(b, db.data);
    case AddColumn(t, c, _, v) => ColumnKept(db.data, t, c, v);
    case _ => OtherTableKept(db.data, Eff(s, b, db).data);
  }

  lemma DoneKept(i: Item, s: Stmt, b: Backfills, db: Db)
    requires Done(i, db) && Keeps(s, i)
    ensures Done(i, Eff(s, b, db))
  {
    if i.Do? && i.stmt.Update? {
      PrivacyKept(s, b, db);
    }
  }

  lemma {:induction false} DoneKeptAll(i: Item, ss: seq<Stmt>, b: Backfills, db: Db)
    requires Done(i, db) && KeepsAll(ss, i)
    ensures Done(i, EffAll(ss, b, db))
    decreases |ss|
  {
    if ss != [] {
      DoneKept(i, ss[0], b, db);
      DoneKeptAll(i, ss[1..], b, Eff(ss[0], b, db));
    }
  }

  lemma DoneKeptItem(i: Item, j: Item, b: Backfills, db: Db)
    requires Done(i, db) && KeepsAll(StmtsOf(j), i)
    ensures Done(i, EffItem(j, b, db))
  {
    match j
    case Do(s) =>
      assert StmtsOf(j)[0] == s;
      DoneKept(i, s, b, db);
    case Commit =>
    case Unless(v, adds, rest, _) =>
      var ss := StmtsOf(j);
      assert forall k :: 0 <= k < |adds| ==> ss[k] == adds[k];
      assert forall k :: 0 <= k < |rest| + 1 ==> ss[|adds| + k] == (rest + [Record(v)])[k];
      DoneKeptAll(i, adds, b, db);
      DoneKeptAll(i, rest + [Record(v)], b, EffAll(adds, b, db));
  }

  // ---- a prefix of the program ----

  ghost predicate Settled(p: seq<Item>, db: Db) {
    forall k :: 0 <= k < |p| ==> Done(p[k], db)
  }

  lemma {:induction false} SettledNoop(p: seq<Item>, b: Backfills, db: Db)
    requires Settled(p, db) && forall k :: 0 <= k < |p| ==> WellFormed(p[k])
    ensures Migrated(p, b, db) == db
    decreases |p|
  {
    if p != [] {
      DoneNoop(p[0], b, db);
      SettledNoop(p[1..], b, db);
    }
  }

  lemma {:induction false} MigratedAppend(p: seq<Item>, q: seq<Item>, b: Backfills, db: Db)
    ensures Migrated(p + q, b, db) == Migrated(q, b, Migrated(p, b, db))
    decreases |p|
  {
    if p == [] {
      assert p + q == q;
    } else {
      assert (p + q)[1..] == p[1..] + q;
      MigratedAppend(p[1..], q, b, EffItem(p[0], b, db));
    }
  }

  lemma MigratedOneMore(p: seq<Item>, n: nat, b: Backfills, db: Db)
    requires n < |p|
    ensures Migrated(p[..n + 1], b, db) == EffItem(p[n], b, Migrated(p[..n], b, db))
  {
    assert p[..n + 1] == p[..n] + [p[n]];
    MigratedAppend(p[..n], [p[n]], b, db);
    assert [p[n]][1..] == [];
  }

  /** What has run stays done until the end. */
  lemma {:induction false} PrefixSettled(p: seq<Item>, n: nat, b: Backfills, db: Db)
    requires Restartable(p) && n <= |p|
    ensures Settled(p[..n], Migrated(p[..n], b, db))
  {
    if n > 0 {
      hide Done, Migrated, WellFormed, KeepsAll;
      PrefixSettled(p, n - 1, b, db);
      MigratedOneMore(p, n - 1, b, db);
      var before := Migrated(p[..n - 1], b, db);
      forall k | 0 <= k < n
        ensures Done(p[k], EffItem(p[n - 1], b, before))
      {
        if k < n - 1 {
          assert p[..n - 1][k] == p[k];
          DoneKeptItem(p[k], p[n - 1], b, before);
        } else {
          EffDone(p[k], b, before);
        }
      }
    }
  }

  // ---- the states an attempt can leave behind ----

  /** The first `n` items, and the first `m` added columns of the next one when it is a guarded step. */
  function Cut(p: seq<Item>, n: nat, m: nat, b: Backfills, db: Db): Db
    requires n <= |p|
    requires m > 0 ==> n < |p| && p[n].Unless? && m <= |p[n].adds|
  {
    var d := Migrated(p[..n], b, db);
    if m == 0 then d else EffAll(p[n].adds[..m], b, d)
  }

  ghost predicate AllPresent(ss: seq<Stmt>, db: Db) {
    forall k :: 0 <= k < |ss| ==> ss[k].AddColumn? && (ss[k].table, ss[k].column) in db.columns
  }

  lemma {:induction false} PresentNoop(ss: seq<Stmt>, b: Backfills, db: Db)
    requires AllPresent(ss, db)
    ensures EffAll(ss, b, db) == db
    decreases |ss|
  {
    if ss != [] {
      PresentNoop(ss[1..], b, db);
    }
  }

  lemma {:induction false} AddsPresent(ss: seq<Stmt>, b: Backfills, db: Db)
    requires forall k :: 0 <= k < |ss| ==> ss[k].AddColumn?
    ensures AllPresent(ss, EffAll(ss, b, db))
    ensures db.columns.Keys <= EffAll(ss, b, db).columns.Keys
    ensures EffAll(ss, b, db).versions == db.versions
    decreases |ss|
  {
    if ss != [] {
      AddsPresent(ss[1..], b, Eff(ss[0], b, db));
      forall k | 0 <= k < |ss|
        ensures (ss[k].table, ss[k].column) in EffAll(ss, b, db).columns
      {
        if k > 0 {
          assert ss[k] == ss[1..][k - 1];
        }
      }
    }
  }

  lemma {:induction false} EffAllAppend(s: seq<Stmt>, t: seq<Stmt>, b: Backfills, db: Db)
    ensures EffAll(s + t, b, db) == EffAll(t, b, EffAll(s, b, db))
    decreases |s|
  {
    if s == [] {
      assert s + t == t;
    } else {
      assert (s + t)[1..] == s[1..] + t;
      EffAllAppend(s[1..], t, b, Eff(s[0], b, db));
    }
  }

  /** Repeating a guarded step whose first columns are already there gives what it would have given. */
  lemma StepAgain(i: Item, m: nat, b: Backfills, db: Db)
    requires WellFormed(i) && i.Unless? && m <= |i.adds|
    requires i.version !in db.versions
    ensures EffItem(i, b, EffAll(i.adds[..m], b, db)) == EffItem(i, b, db)
  {
    var some, others := i.adds[..m], i.adds[m..];
    var cut := EffAll(some, b, db);
    AddsPresent(some, b, db);
    assert i.adds == some + others;
    EffAllAppend(some, others, b, db);
    EffAllAppend(some, others, b, cut);
    PresentNoop(some, b, cut);
  }

  lemma CutSettled(p: seq<Item>, n: nat, m: nat, b: Backfills, db: Db)
    requires Restartable(p) && n <= |p|
    requires m > 0 ==> n < |p| && p[n].Unless? && m <= |p[n].adds|
    ensures Settled(p[..n], Cut(p, n, m, b, db))
  {
    PrefixSettled(p, n, b, db);
    if m > 0 {
      var ss := p[n].adds[..m];
      forall k | 0 <= k < n
        ensures Done(p[k], Cut(p, n, m, b, db))
      {
        assert p[..n][k] == p[k];
        forall x | 0 <= x < |ss|
          ensures Keeps(ss[x], p[k])
        {
          assert StmtsOf(p[n])[x] == ss[x];
        }
        DoneKeptAll(p[k], ss, b, Migrated(p[..n], b, db));
      }
    }
  }

  ghost predicate Converges(p: seq<Item>, b: Backfills, db: Db, left: Db) {
    Migrated(p, b, left) == Migrated(p, b, db)
  }

  lemma CutConverges(p: seq<Item>, n: nat, m: nat, b: Backfills, db: Db)
    requires Restartable(p) && n <= |p|
    requires m > 0 ==> n < |p| && p[n].Unless? && m <= |p[n].adds|
                       && p[n].version !in Migrated(p[..n], b, db).versions
    ensures Converges(p, b, db, Cut(p, n, m, b, db))
  {
    var cut := Cut(p, n, m, b, db);
    CutSettled(p, n, m, b, db);
    SettledNoop(p[..n], b, cut);
    assert p == p[..n] + p[n..];
    MigratedAppend(p[..n], p[n..], b, cut);
    MigratedAppend(p[..n], p[n..], b, db);
    if m > 0 {
      StepAgain(p[n], m, b, Migrated(p[..n], b, db));
      assert p[n..][0] == p[n];
    }
  }

  // ---- every state of an attempt ----

  /** The working copy is at a cut, and what is committed converges. */
  ghost predicate At(p: seq<Item>, n: nat, m: nat, b: Backfills, db: Db, c: Conn) {
    && n <= |p|
    && (m > 0 ==> n < |p| && p[n].Unless? && m <= |p[n].adds|)
    && c.working == Cut(p, n, m, b, db)
    && Converges(p, b, db, c.durable)
  }

  ghost predicate AllConverge(p: seq<Item>, b: Backfills, db: Db, t: seq<Conn>) {
    forall k :: 0 <= k < |t| ==> Converges(p, b, db, t[k].durable)
  }

  lemma {:induction false} AddsConverge(p: seq<Item>, n: nat, m: nat, b: Backfills, db: Db, c: Conn)
    requires Restartable(p) && n < |p| && p[n].Unless? && m <= |p[n].adds| && At(p, n, m, b, db, c)
    requires p[n].version !in Migrated(p[..n], b, db).versions
    ensures var t := TraceAll(p[n].adds[m..], b, c);
            AllConverge(p, b, db, t) && At(p, n, |p[n].adds|, b, db, Last(c, t))
    decreases |p[n].adds| - m
  {
    hide Converges, Migrated;
    var adds := p[n].adds;
    if m < |adds| {
      var t := TraceStmt(adds[m], b, c);
      assert adds[m..][0] == adds[m] && adds[m..][1..] == adds[m + 1..];
      assert adds[..m + 1] == adds[..m] + [adds[m]];
      EffAllAppend(adds[..m], [adds[m]], b, Migrated(p[..n], b, db));
      assert [adds[m]][1..] == [];
      CutConverges(p, n, m + 1, b, db);
      assert adds[m].AddColumn?;
      AddsConverge(p, n, m + 1, b, db, Last(c, t));
      var u := TraceAll(adds[m + 1..], b, Last(c, t));
      LastAppend(c, t, u);
    }
  }

  lemma {:induction false} RestKeepsDurable(ss: seq<Stmt>, b: Backfills, c: Conn)
    requires forall k :: 0 <= k < |ss| ==> !CommitsItself(ss[k])
    ensures forall k :: 0 <= k < |TraceAll(ss, b, c)| ==> TraceAll(ss, b, c)[k].durable == c.durable
    ensures Last(c, TraceAll(ss, b, c)) == Conn(c.durable, EffAll(ss, b, c.working))
    decreases |ss|
  {
    if ss != [] {
      var t := TraceStmt(ss[0], b, c);
      RestKeepsDurable(ss[1..], b, Last(c, t));
      LastAppend(c, t, TraceAll(ss[1..], b, Last(c, t)));
    }
  }

  lemma StepConverges(p: seq<Item>, n: nat, b: Backfills, db: Db, c: Conn)
    requires Restartable(p) && n < |p| && p[n].Unless? && At(p, n, 0, b, db, c)
    ensures var t := TraceItem(p[n], b, c);
            AllConverge(p, b, db, t) && At(p, n + 1, 0, b, db, Last(c, t))
  {
    hide Converges, Migrated, TraceAll, Eff, HasWork, TraceStmt, Keeps;
    var i := p[n];
    MigratedOneMore(p, n, b, db);
    if i.version !in c.working.versions {
      assert i.adds[0..] == i.adds && i.adds[..|i.adds|] == i.adds;
      AddsConverge(p, n, 0, b, db, c);
      var c1 := Last(c, TraceAll(i.adds, b, c));
      var rest := i.rest + [Record(i.version)];
      RestKeepsDurable(rest, b, c1);
      CutConverges(p, n + 1, 0, b, db);
      StepEnds(i, b, c);
      assert c1.working == EffAll(i.adds, b, c.working);
    }
  }

  lemma ItemConverges(p: seq<Item>, n: nat, b: Backfills, db: Db, c: Conn)
    requires Restartable(p) && n < |p| && At(p, n, 0, b, db, c)
    ensures var t := TraceItem(p[n], b, c);
            AllConverge(p, b, db, t) && At(p, n + 1, 0, b, db, Last(c, t))
  {
    if p[n].Unless? {
      StepConverges(p, n, b, db, c);
    } else {
      hide Converges, Migrated;
      MigratedOneMore(p, n, b, db);
      CutConverges(p, n, 0, b, db);
      CutConverges(p, n + 1, 0, b, db);
    }
  }

  lemma {:induction false} TraceConverges(p: seq<Item>, n: nat, b: Backfills, db: Db, c: Conn)
    requires Restartable(p) && n <= |p| && At(p, n, 0, b, db, c)
    ensures var t := Trace(p[n..], b, c);
            AllConverge(p, b, db, t) && At(p, |p|, 0, b, db, Last(c, t))
    decreases |p| - n
  {
    if n < |p| {
      hide Converges, Migrated;
      assert p[n..][0] == p[n] && p[n..][1..] == p[n + 1..];
      ItemConverges(p, n, b, db, c);
      var t := TraceItem(p[n], b, c);
      TraceConverges(p, n + 1, b, db, Last(c, t));
      LastAppend(c, t, Trace(p[n + 1..], b, Last(c, t)));
    }
  }

  // ---- the theorems ----

  /** After a failure at any statement, the next uninterrupted run makes up for it. */
  lemma AttemptConverges(p: seq<Item>, b: Backfills, db: Db, stop: nat)
    requires Restartable(p)
    ensures Migrated(p, b, Attempt(p, b, db, stop)) == Migrated(p, b, db)
  {
    assert p[0..] == p && p[..0] == [];
    TraceConverges(p, 0, b, db, Conn(db, db));
  }

  /** So it does after any number of failed attempts. */
  lemma {:induction false} AttemptsConverge(p: seq<Item>, b: Backfills, db: Db, stops: seq<nat>)
    requires Restartable(p)
    ensures Migrated(p, b, Attempts(p, b, db, stops)) == Migrated(p, b, db)
    decreases |stops|
  {
    if stops != [] {
      AttemptConverges(p, b, db, stops[0]);
      AttemptsConverge(p, b, Attempt(p, b, db, stops[0]), stops[1..]);
    }
  }

  lemma CommitTrace(b: Backfills, c: Conn)
    ensures Trace([Item.Commit], b, c) == [Conn(c.working, c.working)]
  {
    assert [Item.Commit][1..] == [];
  }

  /** A run that ends with its commit leaves exactly `Migrated` behind. */
  lemma RunCommits(p: seq<Item>, b: Backfills, db: Db)
    requires Restartable(p) && p != [] && p[|p| - 1].Commit?
    ensures Last(Conn(db, db), Trace(p, b, Conn(db, db))) == Conn(Migrated(p, b, db), Migrated(p, b, db))
  {
    hide Trace, Migrated, Restartable;
    var c := Conn(db, db);
    var q := p[..|p| - 1];
    assert p[0..] == p && p[..0] == [] && p[..|p|] == p;
    assert At(p, 0, 0, b, db, c) by {
      MigratedNothing(b, db);
    }
    TraceConverges(p, 0, b, db, c);
    assert p == q + [Item.Commit];
    TraceAppend(q, [Item.Commit], b, c);
    CommitTrace(b, Last(c, Trace(q, b, c)));
  }

  lemma MigratedNothing(b: Backfills, db: Db)
    ensures Migrated([], b, db) == db
  {
  }

  lemma TraceUnfold(p: seq<Item>, b: Backfills, c: Conn)
    requires p != []
    ensures Trace(p, b, c) == TraceItem(p[0], b, c) + Trace(p[1..], b, Last(c, TraceItem(p[0], b, c)))
  {
  }

  lemma AppendAssociates<T>(t: seq<T>, u: seq<T>, v: seq<T>)
    ensures t + (u + v) == (t + u) + v
  {
  }

  lemma {:induction false} TraceAppend(p: seq<Item>, q: seq<Item>, b: Backfills, c: Conn)
    ensures Trace(p + q, b, c) == Trace(p, b, c) + Trace(q, b, Last(c, Trace(p, b, c)))
    decreases |p|
  {
    if p == [] {
      assert p + q == q;
    } else {
      TraceAppendStep(p, q, b, c);
    }
  }

  lemma {:induction false} TraceAppendStep(p: seq<Item>, q: seq<Item>, b: Backfills, c: Conn)
    requires p != []
    ensures Trace(p + q, b, c) == Trace(p, b, c) + Trace(q, b, Last(c, Trace(p, b, c)))
    decreases |p|, 0
  {
    hide *;
    assert (p + q)[0] == p[0];
    assert (p + q)[1..] == p[1..] + q;
    var t := TraceItem(p[0], b, c);
    var c1 := Last(c, t);
    var u := Trace(p[1..], b, c1);
    var v := Trace(q, b, Last(c1, u));
    TraceUnfold(p + q, b, c);
    TraceAppend(p[1..], q, b, c1);
    TraceUnfold(p, b, c);
    LastAppend(c, t, u);
    AppendAssociates(t, u, v);
  }

  /** A further run changes nothing. */
  lemma MigratedTwice(p: seq<Item>, b: Backfills, db: Db)
    requires Restartable(p)
    ensures Migrated(p, b, Migrated(p, b, db)) == Migrated(p, b, db)
  {
    assert p[..|p|] == p;
    CutConverges(p, |p|, 0, b, db);
  }
}
