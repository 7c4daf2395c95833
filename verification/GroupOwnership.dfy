/**
 Runs of the group handlers in any order, and what they keep: one owner for each group, and who can
 change whom.
 */
module GroupOwnership {
  import opened Common
  import opened GroupMembership

  datatype Step =
    | Founding(creator: UserId, c: ChatId, asked: seq<UserId>, p: Policy, now: int)
    | RoleChange(actor: UserId, c: ChatId, target: UserId, next: Role)
    | Leaving(u: UserId, c: ChatId)
    | Expelling(actor: UserId, c: ChatId, target: UserId, ban: bool)
    | Adding(actor: UserId, c: ChatId, asked: seq<UserId>, p: Policy, now: int)
    | Joining(u: UserId, c: ChatId, now: int)
    | Contacting(book: set<(UserId, ChatId)>)    // whatever direct chats do to `contacts`

  ghost function Next(db: Db, s: Step): Db {
    match s
    case Founding(creator, c, asked, p, now) => Create(db, creator, c, asked, p, now).0
    case RoleChange(actor, c, target, next) => SetRole(db, actor, c, target, next).0
    case Leaving(u, c) => Leave(db, u, c).0
    case Expelling(actor, c, target, ban) => Expel(db, actor, c, target, if ban then Ban else Kick).0
    case Adding(actor, c, asked, p, now) => AddMembers(db, actor, c, asked, p, now).0
    case Joining(u, c, now) => JoinChat(db, u, c, now)
    case Contacting(book) => db.(contacts := book)
  }

  ghost function Run(db: Db, steps: seq<Step>): Db
    decreases |steps|
  {
    if steps == [] then db else Run(Next(db, steps[0]), steps[1..])
  }

  const EMPTY: Db := Db(map[], {})

  ghost predicate OwnedBy(rows: Rows, o: UserId) {
    Owners(rows) == {o}
  }

  ghost predicate OneOwner(rows: Rows) {
    |Owners(rows)| == 1
  }

  ghost predicate Inv(db: Db) {
    forall c :: c in db.groups ==> OneOwner(db.groups[c])
  }

  ghost function OwnerOf(rows: Rows): (o: UserId)
    requires OneOwner(rows)
    ensures OwnedBy(rows, o)
    ensures o in rows && rows[o].role.Owner?
    ensures forall u :: u in rows && rows[u].role.Owner? ==> u == o
  {
    var o :| o in Owners(rows);
    assert |Owners(rows) - {o}| == 0;
    assert o in rows && rows[o].role.Owner?;
    assert forall u :: u in rows && rows[u].role.Owner? ==> u in Owners(rows);
    o
  }

  lemma OwnedByOne(rows: Rows, o: UserId)
    requires o in rows && rows[o].role.Owner?
    requires forall u :: u in rows && rows[u].role.Owner? ==> u == o
    ensures OneOwner(rows) && OwnerOf(rows) == o
  {
    assert Owners(rows) == {o};
  }

  // ---- what each operation does to the rows of its chat ----

  lemma TransferOwner(rows: Rows, o: UserId, t: UserId)
    requires OneOwner(rows) && o == OwnerOf(rows) && t in rows && t != o
    ensures var after := WithRole(WithRole(rows, o, Admin), t, Owner);
            OneOwner(after) && OwnerOf(after) == t && after[o].role == Admin
  {
    OwnedByOne(WithRole(WithRole(rows, o, Admin), t, Owner), t);
  }

  lemma SucceedOwner(rows: Rows, o: UserId, s: UserId)
    requires OneOwner(rows) && o == OwnerOf(rows) && s in rows && s != o
    ensures OneOwner(WithRole(rows, s, Owner) - {o})
    ensures OwnerOf(WithRole(rows, s, Owner) - {o}) == s
  {
    OwnedByOne(WithRole(rows, s, Owner) - {o}, s);
  }

  lemma KeepOwner(rows: Rows, after: Rows)
    requires OneOwner(rows)
    requires var o := OwnerOf(rows); o in after && after[o] == rows[o]
    requires forall u :: u in after && after[u].role.Owner? ==> u in rows && rows[u].role.Owner?
    ensures OneOwner(after) && OwnerOf(after) == OwnerOf(rows)
  {
    OwnedByOne(after, OwnerOf(rows));
  }

  lemma AloneIsOne(rows: Rows, u: UserId)
    requires u in rows
    ensures |rows| <= 1 <==> rows.Keys == {u}
  {
    assert |rows.Keys - {u}| == |rows.Keys| - 1;
    assert |rows| == |rows.Keys|;
    assert rows.Keys == rows.Keys - {u} + {u};
  }

  /** In a group with one owner, leaving always hands over, dissolves, or removes a plain row. */
  lemma LeaveEffect(db: Db, u: UserId, c: ChatId)
    requires Inv(db) && c in db.groups && IsMember(db, u, c)
    ensures var (after, reply) := Leave(db, u, c);
            var rows := db.groups[c];
            && (u != OwnerOf(rows) ==> reply == Left(None) && after == RemoveRow(db, u, c))
            && (rows.Keys == {u} ==> reply == Disbanded && after.groups == db.groups - {c})
            && (u == OwnerOf(rows) && rows.Keys != {u} ==>
                  && rows.Keys - {u} > {}
                  && reply == Left(Some(Successor(rows, u)))
                  && after.groups == db.groups[c := WithRole(rows, Successor(rows, u), Owner) - {u}])
  {
    var rows := db.groups[c];
    var o := OwnerOf(rows);
    if rows.Keys == {u} {
      AloneIsOne(rows, u);
      assert o == u;
    } else if u == o {
      AloneIsOne(rows, u);
      OthersRemain(rows, u);
    }
  }

  // ---- one step ----

  /** Groups other than the step's own keep their rows. */
  lemma OtherGroupsUntouched(db: Db, s: Step, d: ChatId)
    requires s.Contacting? || s.c != d
    ensures d in Next(db, s).groups <==> d in db.groups
    ensures d in db.groups ==> Next(db, s).groups[d] == db.groups[d]
  {
    if s.Leaving? && s.c in db.groups && IsMember(db, s.u, s.c) {
      var rows := db.groups[s.c];
      if |rows| > 1 {
        OthersRemain(rows, s.u);
      }
    }
  }

  /** What a step leaves in an existing group, when the group is still there. */
  lemma RowsAfter(db: Db, s: Step, c: ChatId)
    requires Inv(db) && c in db.groups && c in Next(db, s).groups
    ensures OneOwner(Next(db, s).groups[c])
  {
    var rows, after := db.groups[c], Next(db, s).groups[c];
    if s.Contacting? || s.c != c {
      OtherGroupsUntouched(db, s, c);
    } else if s.Leaving? {
      if IsMember(db, s.u, c) {
        LeaveEffect(db, s.u, c);
        if s.u == OwnerOf(rows) && rows.Keys != {s.u} {
          SucceedOwner(rows, s.u, Successor(rows, s.u));
        } else {
          KeepOwner(rows, after);
        }
      }
    } else if s.RoleChange? && s.next.Owner? && after != rows {
      TransferOwner(rows, s.actor, s.target);
    } else {
      KeepOwner(rows, after);
    }
  }

  lemma FoundersRows(creator: UserId, added: set<UserId>, now: int)
    requires creator !in added
    ensures var rows := EnsureRows(EnsureRows(map[], {creator}, Owner, now), added, Member, now);
            && OneOwner(rows) && OwnerOf(rows) == creator
            && rows.Keys == {creator} + added
            && forall u :: u in rows && u != creator ==> rows[u] == Row(Member, now)
  {
    var rows := EnsureRows(EnsureRows(map[], {creator}, Owner, now), added, Member, now);
    assert rows.Keys == {creator} + added && rows[creator] == Row(Owner, now);
    assert forall u :: u in added ==> rows[u] == Row(Member, now);
    hide EnsureRows, Owners;
    OwnedByOne(rows, creator);
  }

  lemma FoundingRows(creator: UserId, asked: seq<UserId>, p: Policy, now: int)
    ensures var rows := EnsureRows(EnsureRows(map[], {creator}, Owner, now), AutoAdded(Without(asked, creator), p), Member, now);
            && OneOwner(rows) && OwnerOf(rows) == creator
            && rows.Keys == {creator} + AutoAdded(asked, p)
            && forall u :: u in rows && u != creator ==> rows[u] == Row(Member, now)
  {
    hide EnsureRows, OneOwner;
    var added := AutoAdded(Without(asked, creator), p);
    assert added == AutoAdded(asked, p) - {creator};
    FoundersRows(creator, added, now);
  }

  /** A new group holds its creator as owner and the people who may be added as plain members. */
  lemma FoundingEffect(db: Db, s: Step)
    requires s.Founding? && s.c !in db.groups && s.c in Next(db, s).groups
    ensures var rows := Next(db, s).groups[s.c];
            && OneOwner(rows) && OwnerOf(rows) == s.creator
            && rows.Keys == {s.creator} + AutoAdded(s.asked, s.p)
            && forall u :: u in rows && u != s.creator ==> rows[u] == Row(Member, s.now)
  {
    hide Owners, EnsureRows, AutoAdded, OneOwner, FirstIn, SomeAccept;
    FoundingRows(s.creator, s.asked, s.p, s.now);
  }

  lemma {:induction false} ElementsSize(ids: seq<UserId>)
    ensures |Elements(ids)| <= |ids|
  {
    if ids == [] {
      assert Elements(ids) == {};
    } else {
      ElementsSize(ids[1..]);
      assert Elements(ids) == {ids[0]} + Elements(ids[1..]);
    }
  }

  lemma EnsuredRows(rows: Rows, added: set<UserId>, now: int)
    ensures var after := EnsureRows(rows, added, Member, now);
            && after.Keys == rows.Keys + added
            && (forall u :: u in rows ==> after[u] == rows[u])
            && (forall u :: u in added && u !in rows ==> after[u] == Row(Member, now))
  {
  }

  lemma UnionSize<T>(a: set<T>, b: set<T>)
    ensures |a + b| <= |a| + |b|
  {
    SubsetCardinality(b - a, b);
    assert a + b == a + (b - a);
  }

  lemma EnsuredSize(rows: Rows, after: Rows, added: set<UserId>)
    requires after.Keys == rows.Keys + added
    ensures |after| <= |rows| + |added|
  {
    UnionSize(rows.Keys, added);
    assert |after| == |after.Keys| && |rows| == |rows.Keys|;
  }

  ghost predicate Accepts(p: Policy, u: UserId) {
    u in p.known && u !in p.banned && u !in p.blocked && u !in p.ask && u !in p.deny
  }

  /**
   Adding members brings in exactly the people asked for who accept, as plain members, changes no
   other row and respects the size limit; any refusal changes nothing at all.
   */
  lemma AddingEffect(db: Db, actor: UserId, c: ChatId, asked: seq<UserId>, p: Policy, now: int)
    ensures var (after, reply) := AddMembers(db, actor, c, asked, p, now);
            && (reply != Added ==> after == db)
            && (reply == Added ==>
                  && c in db.groups && after.groups.Keys == db.groups.Keys
                  && actor in db.groups[c] && (db.groups[c][actor].role.Member? ==> p.membersMayInvite)
                  && after.groups[c].Keys == db.groups[c].Keys + (set u | u in asked && u != actor && Accepts(p, u))
                  && (forall u :: u in db.groups[c] ==> after.groups[c][u] == db.groups[c][u])
                  && (forall u :: u in after.groups[c] && u !in db.groups[c] ==> after.groups[c][u] == Row(Member, now))
                  && |after.groups[c]| <= MAX_GROUP_MEMBERS)
  {
    if AddMembers(db, actor, c, asked, p, now).1 == Added {
      var ids := Without(asked, actor);
      var added := AutoAdded(ids, p);
      assert added == set u | u in asked && u != actor && Accepts(p, u);
      EnsuredRows(db.groups[c], added, now);
      EnsuredSize(db.groups[c], EnsureRows(db.groups[c], added, Member, now), added);
      ElementsSize(ids);
      SubsetCardinality(added, Elements(ids));
    }
  }

  lemma StepKeepsInv(db: Db, s: Step)
    requires Inv(db)
    ensures Inv(Next(db, s))
  {
    forall c | c in Next(db, s).groups
      ensures OneOwner(Next(db, s).groups[c])
    {
      if c in db.groups {
        RowsAfter(db, s, c);
      } else if s.Contacting? || s.c != c {
        OtherGroupsUntouched(db, s, c);
      } else if s.Founding? {
        FoundingEffect(db, s);
      }
    }
  }

  /** Every group of every run has exactly one owner. */
  lemma {:induction false} RunKeepsInv(db: Db, steps: seq<Step>)
    requires Inv(db)
    ensures Inv(Run(db, steps))
    decreases |steps|
  {
    if steps != [] {
      StepKeepsInv(db, steps[0]);
      RunKeepsInv(Next(db, steps[0]), steps[1..]);
    }
  }

  ghost predicate Reachable(db: Db) {
    exists steps :: db == Run(EMPTY, steps)
  }

  lemma ReachableInv(db: Db)
    requires Reachable(db)
    ensures Inv(db)
  {
    var steps :| db == Run(EMPTY, steps);
    RunKeepsInv(EMPTY, steps);
  }

  /** A group disappears exactly when its last member leaves. */
  lemma GroupVanishes(db: Db, s: Step, c: ChatId)
    requires Reachable(db) && c in db.groups
    ensures c !in Next(db, s).groups <==> s.Leaving? && s.c == c && db.groups[c].Keys == {s.u}
  {
    ReachableInv(db);
    if s.Contacting? || s.c != c {
      OtherGroupsUntouched(db, s, c);
    } else if s.Leaving? && IsMember(db, s.u, c) {
      LeaveEffect(db, s.u, c);
    }
  }

  ghost predicate Transfers(rows: Rows, s: Step)
    requires OneOwner(rows)
  {
    s.RoleChange? && s.actor == OwnerOf(rows) && s.next.Owner? && s.target in rows && s.target != s.actor
  }

  /**
   The owner of a group that stays changes exactly when the owner hands the role over or leaves.
   The new one is the chosen target, or the first of the others by role rank, joined_at and user_id.
   */
  lemma OwnerChanges(db: Db, s: Step, c: ChatId)
    requires Reachable(db) && c in db.groups && c in Next(db, s).groups
    ensures Inv(db) && Inv(Next(db, s))
    ensures var rows, after := db.groups[c], Next(db, s).groups[c];
            && (OwnerOf(after) != OwnerOf(rows) <==>
                  !s.Contacting? && s.c == c && (Transfers(rows, s) || (s.Leaving? && s.u == OwnerOf(rows))))
            && (!s.Contacting? && s.c == c && Transfers(rows, s) ==>
                  OwnerOf(after) == s.target && after[s.actor].role == Admin)
            && (s.Leaving? && s.c == c && s.u == OwnerOf(rows) ==>
                  && IsFirst(rows, rows.Keys - {s.u}, OwnerOf(after))
                  && after.Keys == rows.Keys - {s.u}
                  && forall v :: v in after && v != OwnerOf(after) ==> after[v] == rows[v])
  {
    ReachableInv(db);
    StepKeepsInv(db, s);
    GroupVanishes(db, s, c);
    var rows, after := db.groups[c], Next(db, s).groups[c];
    if s.Contacting? || s.c != c {
      OtherGroupsUntouched(db, s, c);
    } else if s.Leaving? {
      if IsMember(db, s.u, c) {
        LeaveEffect(db, s.u, c);
        if s.u == OwnerOf(rows) {
          SucceedOwner(rows, s.u, Successor(rows, s.u));
        } else {
          KeepOwner(rows, after);
        }
      }
    } else if Transfers(rows, s) {
      TransferOwner(rows, s.actor, s.target);
    } else {
      KeepOwner(rows, after);
    }
  }

  // ---- who can do what to whom ----

  /** Owner over admin over moderator over member. */
  predicate Above(a: Role, b: Role) {
    match a
    case Owner => !b.Owner?
    case Admin => b.Moderator? || b.Member?
    case Moderator => b.Member?
    case Member => false
  }

  ghost predicate Outranks(rows: Rows, actor: UserId, target: UserId) {
    actor in rows && target in rows && Above(rows[actor].role, rows[target].role)
  }

  ghost predicate MayExpel(rows: Rows, actor: UserId, target: UserId) {
    Outranks(rows, actor, target) && !rows[actor].role.Member?
  }

  /** Removing and banning work exactly on lower ranks, so never on the owner and never on oneself. */
  lemma ExpelExact(db: Db, actor: UserId, c: ChatId, target: UserId, ban: bool)
    ensures var (after, reply) := Expel(db, actor, c, target, if ban then Ban else Kick);
            && (reply.Removed? <==> c in db.groups && MayExpel(db.groups[c], actor, target))
            && (reply.Removed? ==> !db.groups[c][target].role.Owner? && after == RemoveRow(db, target, c))
            && (!reply.Removed? ==> after == db)
  {
  }

  ghost predicate MayAssign(rows: Rows, actor: UserId, target: UserId, next: Role) {
    && actor in rows && target in rows
    && rows[target].role != next
    && if next.Owner? || next.Admin? then rows[actor].role.Owner? && (next.Admin? ==> !rows[target].role.Owner?)
       else (rows[actor].role.Owner? || rows[actor].role.Admin?) && !rows[target].role.Owner?
            && (actor == target || Outranks(rows, actor, target))
  }

  /** The role change succeeds exactly under `MayAssign`, and two of the handler's refusals never occur. */
  lemma SetRoleExact(db: Db, actor: UserId, c: ChatId, target: UserId, next: Role)
    ensures var (after, reply) := SetRole(db, actor, c, target, next);
            && (reply.RoleSet? <==> c in db.groups && MayAssign(db.groups[c], actor, target, next))
            && (!reply.RoleSet? ==> after == db)
            && !reply.AlreadyOwner? && !reply.OnlyOwnerAppoints?
  {
  }

  /** A member loses the row exactly by leaving or by being expelled by a higher rank. */
  lemma MemberGoes(db: Db, s: Step, c: ChatId, v: UserId)
    requires Reachable(db) && c in db.groups && v in db.groups[c]
    ensures !(c in Next(db, s).groups && v in Next(db, s).groups[c]) <==>
              !s.Contacting? && s.c == c && ((s.Leaving? && s.u == v)
                                             || (s.Expelling? && s.target == v && MayExpel(db.groups[c], s.actor, v)))
  {
    ReachableInv(db);
    var rows := db.groups[c];
    if s.Contacting? || s.c != c {
      OtherGroupsUntouched(db, s, c);
    } else if s.Leaving? {
      if IsMember(db, s.u, c) {
        LeaveEffect(db, s.u, c);
      }
    } else if s.Expelling? {
      ExpelExact(db, s.actor, c, s.target, s.ban);
    }
  }

  ghost predicate RisesTo(rows: Rows, after: Rows, v: UserId, r: Role) {
    v in after && after[v].role == r && (v !in rows || Above(r, rows[v].role))
  }

  /** Nobody becomes admin or owner but by the owner's own act. */
  lemma NoEscalation(db: Db, s: Step, c: ChatId, v: UserId, r: Role)
    requires Reachable(db) && c in db.groups && c in Next(db, s).groups
    requires r.Admin? || r.Owner?
    requires RisesTo(db.groups[c], Next(db, s).groups[c], v, r)
    ensures Inv(db)
    ensures || (s.RoleChange? && s.c == c && s.actor == OwnerOf(db.groups[c]) && s.target == v && s.next == r)
            || (s.Leaving? && s.c == c && s.u == OwnerOf(db.groups[c]) && r.Owner?
                && IsFirst(db.groups[c], db.groups[c].Keys - {s.u}, v))
  {
    ReachableInv(db);
    GroupVanishes(db, s, c);
    if s.Contacting? || s.c != c {
      OtherGroupsUntouched(db, s, c);
    } else if s.Leaving? {
      if IsMember(db, s.u, c) {
        LeaveEffect(db, s.u, c);
      }
    }
  }

  /**
   Deleting an account takes its rows along without naming a successor, so it keeps every group owned
   exactly when the account owns none.
   */
  lemma DeleteAccountOrphans(db: Db, u: UserId)
    requires Inv(db)
    ensures Inv(DeleteAccount(db, u)) <==> forall c :: c in db.groups ==> OwnerOf(db.groups[c]) != u
  {
    forall c | c in db.groups
      ensures OneOwner(DeleteAccount(db, u).groups[c]) <==> OwnerOf(db.groups[c]) != u
    {
      var rows, after := db.groups[c], DeleteAccount(db, u).groups[c];
      if OwnerOf(rows) == u {
        assert Owners(after) == {};
      } else {
        KeepOwner(rows, after);
      }
    }
    assert DeleteAccount(db, u).groups.Keys == db.groups.Keys;
  }

  lemma FoundPair(c: ChatId)
    ensures var p := Policy({2}, {}, {}, {}, {}, false);
            Next(EMPTY, Founding(1, c, [2], p, 0)).groups == map[c := map[1 := Row(Owner, 0), 2 := Row(Member, 0)]]
  {
    var p := Policy({2}, {}, {}, {}, {}, false);
    var ids: seq<UserId> := [2];
    assert ids[1..] == [];
    assert Without(ids, 1) == ids;
    assert FirstIn(ids, {}).None?;
    assert 2 in [2] && SomeAccept([2], p);
    assert AutoAdded([2], p) == {2};
    var rows := EnsureRows(EnsureRows(map[], {1}, Owner, 0), {2}, Member, 0);
    assert rows == map[1 := Row(Owner, 0), 2 := Row(Member, 0)];
    assert Create(EMPTY, 1, c, ids, p, 0).1 == Created;
  }

  /** It can happen: the creator deletes the account, and a group of one member has no owner. */
  lemma OrphanedGroup(c: ChatId)
    ensures exists db :: && Reachable(db) && c in db.groups
                         && DeleteAccount(db, 1).groups == map[c := map[2 := Row(Member, 0)]]
  {
    var s := Founding(1, c, [2], Policy({2}, {}, {}, {}, {}, false), 0);
    FoundPair(c);
    var db := Next(EMPTY, s);
    assert Run(EMPTY, [s]) == Run(db, []) == db by {
      hide Next;
      assert [s][1..] == [];
    }
    assert DeleteAccount(db, 1).groups[c] == map[2 := Row(Member, 0)];
  }
}
