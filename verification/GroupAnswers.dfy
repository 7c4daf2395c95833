/**
 Whom the group handlers serve and whom they refuse, and which rows each of them changes.
 */
module GroupAnswers {
  import opened Common
  import opened GroupMembership
  import opened GroupOwnership

  // ---- founding and adding ----

  /** Somebody besides the caller is asked for. */
  ghost predicate AsksOthers(asked: seq<UserId>, caller: UserId) {
    exists u :: u in asked && u != caller
  }

  ghost predicate AllOthers(asked: seq<UserId>, caller: UserId, good: set<UserId>) {
    forall u :: u in asked && u != caller ==> u in good
  }

  ghost predicate NoOther(asked: seq<UserId>, caller: UserId, bad: set<UserId>) {
    forall u :: u in asked && u != caller ==> u !in bad
  }

  /** Moderators and above may invite, and plain members where the group lets them. */
  ghost predicate MayInvite(rows: Rows, actor: UserId, p: Policy) {
    && actor in rows
    && (rows[actor].role.Owner? || rows[actor].role.Admin? || rows[actor].role.Moderator? || p.membersMayInvite)
  }

  lemma FirstInExact(asked: seq<UserId>, caller: UserId, bad: set<UserId>)
    ensures FirstIn(Without(asked, caller), bad).None? <==> NoOther(asked, caller, bad)
  {
    var ids := Without(asked, caller);
    if FirstIn(ids, bad).Some? {
      assert FirstIn(ids, bad).value in asked;
    }
  }

  lemma AsksExact(asked: seq<UserId>, caller: UserId)
    ensures Without(asked, caller) == [] <==> !AsksOthers(asked, caller)
  {
    var ids := Without(asked, caller);
    if ids != [] {
      assert ids[0] in ids;
    }
  }

  /** How many are left of a list without duplicates. */
  lemma {:induction false} OthersCount(asked: seq<UserId>, caller: UserId)
    requires forall i, j :: 0 <= i < j < |asked| ==> asked[i] != asked[j]
    ensures |Without(asked, caller)| == |asked| - (if caller in asked then 1 else 0)
  {
    if asked != [] {
      OthersCount(asked[1..], caller);
      assert asked[0] !in asked[1..] by {
        assert forall j :: 0 <= j < |asked| - 1 ==> asked[1..][j] == asked[j + 1];
      }
      assert caller in asked <==> caller == asked[0] || caller in asked[1..];
    }
  }

  /** Adding succeeds exactly for somebody who may invite, with people all known and free, within the limit. */
  lemma AddedExactly(db: Db, actor: UserId, c: ChatId, asked: seq<UserId>, p: Policy, now: int)
    ensures AddMembers(db, actor, c, asked, p, now).1 == Added <==>
              && c in db.groups && AsksOthers(asked, actor) && MayInvite(db.groups[c], actor, p)
              && AllOthers(asked, actor, p.known) && NoOther(asked, actor, p.banned) && NoOther(asked, actor, p.blocked)
              && |db.groups[c]| + |Without(asked, actor)| <= 200_000
  {
    AsksExact(asked, actor);
    FirstInExact(asked, actor, p.banned);
    FirstInExact(asked, actor, p.blocked);
    hide FirstIn, EnsureRows, AutoAdded;
  }

  /** Each refusal has the reason it names. */
  lemma RefusedTruly(db: Db, actor: UserId, c: ChatId, asked: seq<UserId>, p: Policy, now: int)
    ensures var reply := AddMembers(db, actor, c, asked, p, now).1;
            && (reply.NoMembers? ==> !AsksOthers(asked, actor))
            && (reply.GroupNotFound? ==> c !in db.groups)
            && (reply.Forbidden? ==> c in db.groups && !IsMember(db, actor, c))
            && (reply.Denied? ==> c in db.groups && !MayInvite(db.groups[c], actor, p)
                                  && reply.verdict == if actor in db.groups[c] then InsufficientRole else NotMember)
            && (reply.UnknownMember? ==> !AllOthers(asked, actor, p.known))
            && (reply.TooMany? ==> c in db.groups && |db.groups[c]| + |Without(asked, actor)| > MAX_GROUP_MEMBERS)
            && (reply.Banned? ==> reply.who in asked && reply.who != actor && reply.who in p.banned)
            && (reply.Blocked? ==> reply.who in asked && reply.who != actor && reply.who in p.blocked)
            && (reply.NoMembers? || reply.GroupNotFound? || reply.Forbidden? || reply.Denied? || reply.UnknownMember?
                || reply.TooMany? || reply.Banned? || reply.Blocked? || reply.Added?)
  {
    AsksExact(asked, actor);
    hide EnsureRows, AutoAdded;
  }

  /** Somebody asked for may be added or sent a request. */
  ghost predicate SomebodyAccepts(asked: seq<UserId>, creator: UserId, p: Policy) {
    exists u :: u in asked && u != creator && (u in p.ask || u !in p.deny)
  }

  /** Founding succeeds exactly with people all known and not blocked, one of whom accepts, within the limit. */
  lemma CreatedExactly(db: Db, creator: UserId, c: ChatId, asked: seq<UserId>, p: Policy, now: int)
    ensures Create(db, creator, c, asked, p, now).1 == Created <==>
              && c !in db.groups && |Without(asked, creator)| + 1 <= 200_000
              && AllOthers(asked, creator, p.known) && NoOther(asked, creator, p.blocked)
              && SomebodyAccepts(asked, creator, p)
    ensures Create(db, creator, c, asked, p, now).1 != Created ==> Create(db, creator, c, asked, p, now).0 == db
  {
    AsksExact(asked, creator);
    FirstInExact(asked, creator, p.blocked);
    assert SomeAccept(Without(asked, creator), p) <==> SomebodyAccepts(asked, creator, p);
    hide FirstIn, EnsureRows, AutoAdded, SomeAccept;
  }

  lemma FoundingRefusedTruly(db: Db, creator: UserId, c: ChatId, asked: seq<UserId>, p: Policy, now: int)
    ensures var reply := Create(db, creator, c, asked, p, now).1;
            && (reply.NoMembers? ==> !AsksOthers(asked, creator))
            && (reply.TooMany? ==> |Without(asked, creator)| + 1 > MAX_GROUP_MEMBERS)
            && (reply.UnknownMember? ==> !AllOthers(asked, creator, p.known))
            && (reply.Blocked? ==> reply.who in asked && reply.who != creator && reply.who in p.blocked)
            && (reply.NobodyAccepts? ==> !SomebodyAccepts(asked, creator, p))
            && (reply.IdTaken? ==> c in db.groups)
            && (reply.NoMembers? || reply.TooMany? || reply.UnknownMember? || reply.Blocked? || reply.NobodyAccepts?
                || reply.IdTaken? || reply.Created?)
  {
    AsksExact(asked, creator);
    hide EnsureRows, AutoAdded;
  }

  // ---- succession ----

  /** The successor query: an admin before a moderator before a member, then by date, then by number. */
  lemma SuccessorExact(rows: Rows, leaver: UserId)
    requires {} < rows.Keys - {leaver}
    requires forall v :: v in rows && rows[v].role.Owner? ==> v == leaver
    ensures var s := Successor(rows, leaver);
            && s in rows && s != leaver
            && (forall v :: v in rows && v != leaver ==> !Above(rows[v].role, rows[s].role))
            && (forall v :: v in rows && v != leaver && rows[v].role == rows[s].role ==> rows[s].joinedAt <= rows[v].joinedAt)
            && (forall v :: v in rows && v != leaver && rows[v] == rows[s] ==> s <= v)
  {
    var s := Successor(rows, leaver);
    forall v | v in rows && v != leaver
      ensures NotAfter(rows, s, v)
    {
      assert v in rows.Keys - {leaver};
    }
  }

  // ---- rows of an existing group ----

  /** The invitations of a call to add members are accepted for `v`. */
  ghost predicate AddedBy(db: Db, s: Step, v: UserId) {
    s.Adding? && AddMembers(db, s.actor, s.c, s.asked, s.p, s.now).1 == Added && v in s.asked && v != s.actor && Accepts(s.p, v)
  }

  /** Somebody new gets a row exactly by joining or being added, and always that of a plain member. */
  lemma NewRows(db: Db, s: Step, c: ChatId, v: UserId)
    requires Reachable(db) && c in db.groups && v !in db.groups[c]
    ensures c in Next(db, s).groups && v in Next(db, s).groups[c] <==>
              !s.Contacting? && s.c == c && ((s.Joining? && s.u == v) || AddedBy(db, s, v))
    ensures c in Next(db, s).groups && v in Next(db, s).groups[c] ==> Next(db, s).groups[c][v] == Row(Member, s.now)
  {
    ReachableInv(db);
    if s.Contacting? || s.c != c {
      OtherGroupsUntouched(db, s, c);
    } else if s.Leaving? {
      if IsMember(db, s.u, c) {
        LeaveEffect(db, s.u, c);
      }
    } else if s.Adding? {
      AddingEffect(db, s.actor, c, s.asked, s.p, s.now);
      hide AddMembers;
    } else if s.Founding? {
      CreatedExactly(db, s.creator, c, s.asked, s.p, s.now);
      hide Create;
    }
  }

  /** The step is a role change that the handler makes for this member, or makes of the old owner. */
  ghost function NewRole(rows: Rows, s: Step, v: UserId): Option<Role> {
    if !s.RoleChange? || !MayAssign(rows, s.actor, s.target, s.next) then None
    else if v == s.target then Some(s.next)
    else if v == s.actor && s.next.Owner? then Some(Admin)
    else None
  }

  /** A row that stays changes exactly by a role change or by succession, and then only in its role. */
  lemma RowChanges(db: Db, s: Step, c: ChatId, v: UserId)
    requires Reachable(db) && c in db.groups && v in db.groups[c]
    requires c in Next(db, s).groups && v in Next(db, s).groups[c]
    ensures Inv(db)
    ensures var rows, after := db.groups[c], Next(db, s).groups[c];
            if s.Contacting? || s.c != c then after[v] == rows[v]
            else if NewRole(rows, s, v).Some? then after[v] == rows[v].(role := NewRole(rows, s, v).value)
            else if s.Leaving? && s.u == OwnerOf(rows) && rows.Keys != {s.u} && v == Successor(rows, s.u) then
              after[v] == rows[v].(role := Owner)
            else after[v] == rows[v]
  {
    ReachableInv(db);
    if s.Contacting? || s.c != c {
      OtherGroupsUntouched(db, s, c);
    } else if s.Leaving? {
      if IsMember(db, s.u, c) {
        LeaveEffect(db, s.u, c);
      }
    } else if s.RoleChange? {
      SetRoleExact(db, s.actor, c, s.target, s.next);
    } else if s.Adding? {
      AddingEffect(db, s.actor, c, s.asked, s.p, s.now);
      hide AddMembers;
    } else if s.Founding? {
      CreatedExactly(db, s.creator, c, s.asked, s.p, s.now);
      hide Create;
    }
  }

  /** Whoever leaves or is expelled is out: neither a row nor a contact keeps the membership. */
  lemma GoneMeansOut(db: Db, s: Step, c: ChatId, v: UserId)
    requires Inv(db) && c in db.groups && !s.Contacting? && s.c == c && c in Next(db, s).groups
    requires (s.Leaving? && s.u == v && IsMember(db, v, c)) || (s.Expelling? && s.target == v && MayExpel(db.groups[c], s.actor, v))
    ensures !IsMember(Next(db, s), v, c)
    ensures forall u :: u != v ==> (IsMember(Next(db, s), u, c) <==> IsMember(db, u, c))
  {
    if s.Leaving? {
      LeaveEffect(db, v, c);
      var rows := db.groups[c];
      if v == OwnerOf(rows) {
        assert IsMember(db, v, c) && rows.Keys != {v};
      }
    } else {
      ExpelExact(db, s.actor, c, v, s.ban);
    }
  }

  /** With its last member the group goes, and nobody keeps a contact in it. */
  lemma DisbandedMeansGone(db: Db, u: UserId, c: ChatId)
    requires Inv(db) && c in db.groups && db.groups[c].Keys == {u}
    ensures var after := Leave(db, u, c).0;
            && after.groups == db.groups - {c}
            && (forall v :: (v, c) !in after.contacts)
            && forall v, d :: d != c ==> ((v, d) in after.contacts <==> (v, d) in db.contacts)
  {
    LeaveEffect(db, u, c);
  }
}
