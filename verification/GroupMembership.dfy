/**
 The `chat_members` rows of group chats and the handlers that change them:
 app/routes/chat_group_membership_routes.py, app/routes/chat_group_management_routes.py,
 app/services/group_authorization.py and app/services/chat_members.py.

 Each handler is one transaction. The functions give its effect and its answer; the methods of
 `Database` carry it out statement by statement and are proved to do exactly that.
 */
module GroupMembership {
  import opened Common

  type UserId = u: int | 0 < u witness 1
  type ChatId = nat

  datatype Role = Member | Moderator | Admin | Owner

  datatype Row = Row(role: Role, joinedAt: int)

  type Rows = map<UserId, Row>    // the `chat_members` rows of one chat

  /** `contacts` is consulted by `is_chat_member` when there is no `chat_members` row. */
  datatype Db = Db(groups: map<ChatId, Rows>, contacts: set<(UserId, ChatId)>)

  const MAX_GROUP_MEMBERS: nat := 200_000

  // ---- authorisation ----

  datatype Action = Invite | Kick | Ban | ChangeRole(next: Role)

  datatype Verdict =
    | Allowed
    | NotMember
    | InsufficientRole
    | TargetNotMember
    | SelfTarget
    | TargetRoleTooHigh
    | OwnerOnly

  function Priority(r: Role): nat {
    match r
    case Member => 0
    case Moderator => 1
    case Admin => 2
    case Owner => 3
  }

  function MinRole(a: Action): Role {
    if a.ChangeRole? then Admin else Moderator
  }

  function Authorize(rows: Rows, actor: UserId, action: Action, target: Option<UserId>): Verdict {
    if actor !in rows then NotMember
    else
      var role := rows[actor].role;
      if Priority(role) < Priority(MinRole(action)) then InsufficientRole
      else if target.None? then Allowed
      else
        var t := target.value;
        if t !in rows && !action.Invite? then TargetNotMember
        else if (action.Kick? || action.Ban?) && t == actor then SelfTarget
        else if t !in rows then Allowed
        else if Priority(role) <= Priority(rows[t].role) && actor != t then TargetRoleTooHigh
        else if action.ChangeRole? && !role.Owner? && (action.next.Owner? || action.next.Admin?) then OwnerOnly
        else Allowed
  }

  // ---- rows ----

  predicate IsMember(db: Db, u: UserId, c: ChatId)
    requires c in db.groups
  {
    u in db.groups[c] || (u, c) in db.contacts
  }

  function Owners(rows: Rows): set<UserId> {
    set u | u in rows && rows[u].role.Owner?
  }

  function WithRole(rows: Rows, u: UserId, r: Role): Rows
    requires u in rows
  {
    rows[u := rows[u].(role := r)]
  }

  /** `remove_group_member_with_cleanup`, without the message receipts. */
  function RemoveRow(db: Db, u: UserId, c: ChatId): Db
    requires c in db.groups
  {
    Db(db.groups[c := db.groups[c] - {u}], db.contacts - {(u, c)})
  }

  /** `ensure_chat_members`: rows that are already there stay as they are. */
  function EnsureRows(rows: Rows, ids: set<UserId>, role: Role, now: int): Rows {
    (map u | u in ids :: Row(role, now)) + rows
  }

  function Elements(ids: seq<UserId>): set<UserId> {
    set u | u in ids
  }

  // ---- succession ----

  function SuccessionRank(r: Role): nat {
    match r
    case Admin => 0
    case Moderator => 1
    case Member => 2
    case Owner => 2
  }

  /** The order of the successor query: role rank, then `joined_at`, then `user_id`. */
  predicate NotAfter(rows: Rows, u: UserId, v: UserId)
    requires u in rows && v in rows
  {
    var ru, rv := SuccessionRank(rows[u].role), SuccessionRank(rows[v].role);
    || ru < rv
    || (ru == rv && rows[u].joinedAt < rows[v].joinedAt)
    || (ru == rv && rows[u].joinedAt == rows[v].joinedAt && u <= v)
  }

  predicate IsFirst(rows: Rows, candidates: set<UserId>, s: UserId)
    requires candidates <= rows.Keys
  {
    s in candidates && forall v :: v in candidates ==> NotAfter(rows, s, v)
  }

  /** One step of the pass: a further row is compared with the least one so far. */
  lemma FirstOfMore(rows: Rows, candidates: set<UserId>, s: UserId, u: UserId)
    requires candidates <= rows.Keys && u in rows && IsFirst(rows, candidates, s)
    ensures IsFirst(rows, candidates + {u}, if NotAfter(rows, u, s) then u else s)
  {
    var t := if NotAfter(rows, u, s) then u else s;
    forall v | v in candidates + {u}
      ensures NotAfter(rows, t, v)
    {
      assert v in candidates ==> NotAfter(rows, s, v);
    }
  }

  lemma {:induction false} FirstExists(rows: Rows, candidates: set<UserId>)
    requires {} < candidates <= rows.Keys
    ensures exists s :: IsFirst(rows, candidates, s)
    decreases candidates
  {
    var u :| u in candidates;
    if candidates == {u} {
      assert IsFirst(rows, candidates, u);
    } else {
      FirstExists(rows, candidates - {u});
      var s :| IsFirst(rows, candidates - {u}, s);
      FirstOfMore(rows, candidates - {u}, s, u);
      assert candidates - {u} + {u} == candidates;
    }
  }

  ghost function Successor(rows: Rows, leaver: UserId): (s: UserId)
    requires {} < rows.Keys - {leaver}
    ensures IsFirst(rows, rows.Keys - {leaver}, s)
  {
    FirstExists(rows, rows.Keys - {leaver});
    var s :| IsFirst(rows, rows.Keys - {leaver}, s);
    s
  }

  /** The query's answer is unique: its order is total on the rows of a chat. */
  lemma FirstUnique(rows: Rows, candidates: set<UserId>, s: UserId, t: UserId)
    requires candidates <= rows.Keys && IsFirst(rows, candidates, s) && IsFirst(rows, candidates, t)
    ensures s == t
  {
    assert NotAfter(rows, s, t) && NotAfter(rows, t, s);
  }

  // ---- the handlers ----

  datatype Reply =
    | GroupNotFound
    | Forbidden
    | MemberNotFound
    | Denied(verdict: Verdict)
    | Unchanged
    | OnlyOwnerTransfers
    | AlreadyOwner
    | OwnerMustTransfer
    | OnlyOwnerAppoints
    | RoleSet
    | Disbanded
    | Left(newOwner: Option<UserId>)
    | Removed
    | NoMembers
    | TooMany
    | UnknownMember
    | Banned(who: UserId)
    | Blocked(who: UserId)
    | NobodyAccepts
    | IdTaken
    | Created
    | Added

  function SetRole(db: Db, actor: UserId, c: ChatId, target: UserId, next: Role): (Db, Reply) {
    if c !in db.groups then (db, GroupNotFound)
    else if !IsMember(db, actor, c) then (db, Forbidden)
    else
      var rows := db.groups[c];
      if actor !in rows then (db, Forbidden)
      else if target !in rows then (db, MemberNotFound)
      else if rows[target].role == next then (db, Unchanged)
      else if next.Owner? then
        if !rows[actor].role.Owner? then (db, OnlyOwnerTransfers)
        else if target == actor then (db, AlreadyOwner)
        else (db.(groups := db.groups[c := WithRole(WithRole(rows, actor, Admin), target, Owner)]), RoleSet)
      else
        var verdict := Authorize(rows, actor, ChangeRole(next), Some(target));
        if !verdict.Allowed? then (db, Denied(verdict))
        else if rows[target].role.Owner? then (db, OwnerMustTransfer)
        else if !rows[actor].role.Owner? && next.Admin? then (db, OnlyOwnerAppoints)
        else (db.(groups := db.groups[c := WithRole(rows, target, next)]), RoleSet)
  }

  ghost function Leave(db: Db, u: UserId, c: ChatId): (Db, Reply) {
    if c !in db.groups then (db, GroupNotFound)
    else if !IsMember(db, u, c) then (db, Forbidden)
    else
      var rows := db.groups[c];
      var role := if u in rows then rows[u].role else Member;
      if role.Owner? && |Owners(rows)| <= 1 then
        if |rows| <= 1 then
          (Db(db.groups - {c}, set p | p in db.contacts && p.1 != c), Disbanded)
        else
          OthersRemain(rows, u);
          var s := Successor(rows, u);
          (RemoveRow(db.(groups := db.groups[c := WithRole(rows, s, Owner)]), u, c), Left(Some(s)))
      else (RemoveRow(db, u, c), Left(None))
  }

  lemma OthersRemain(rows: Rows, u: UserId)
    requires |rows| > 1
    ensures {} < rows.Keys - {u}
  {
    assert |rows.Keys| == |rows|;
    if rows.Keys - {u} == {} {
      assert rows.Keys <= {u};
      SubsetCardinality(rows.Keys, {u});
    }
  }

  lemma {:induction false} SubsetCardinality<T>(a: set<T>, b: set<T>)
    requires a <= b
    ensures |a| <= |b|
  {
    if a != {} {
      var x :| x in a;
      SubsetCardinality(a - {x}, b - {x});
    }
  }

  /** `remove_group_member`, and the removal made by a ban in `apply_group_member_sanction`. */
  function Expel(db: Db, actor: UserId, c: ChatId, target: UserId, action: Action): (Db, Reply) {
    if c !in db.groups then (db, GroupNotFound)
    else if !IsMember(db, actor, c) then (db, Forbidden)
    else
      var verdict := Authorize(db.groups[c], actor, action, Some(target));
      if !verdict.Allowed? then (db, Denied(verdict))
      else if !IsMember(db, target, c) then (db, MemberNotFound)
      else (RemoveRow(db, target, c), Removed)
  }

  /** What the services around the handler answer about the people to be invited. */
  datatype Policy = Policy(
    known: set<UserId>,          // rows of `users`
    banned: set<UserId>,         // active group bans
    blocked: set<UserId>,        // blocks between inviter and invitee
    ask: set<UserId>,            // privacy setting: send a request instead
    deny: set<UserId>,           // privacy setting: refuse
    membersMayInvite: bool)

  function AutoAdded(ids: seq<UserId>, p: Policy): set<UserId> {
    set u | u in ids && u !in p.ask && u !in p.deny
  }

  function FirstIn(ids: seq<UserId>, bad: set<UserId>): (r: Option<UserId>)
    ensures r.Some? ==> r.value in ids && r.value in bad
    ensures r.None? ==> forall u :: u in ids ==> u !in bad
  {
    if ids == [] then None
    else if ids[0] in bad then Some(ids[0])
    else FirstIn(ids[1..], bad)
  }

  predicate SomeAccept(ids: seq<UserId>, p: Policy) {
    exists u :: u in ids && (u in p.ask || u !in p.deny)
  }

  function Without(ids: seq<UserId>, u: UserId): (r: seq<UserId>)
    ensures |r| <= |ids|
    ensures forall v :: v in r <==> v in ids && v != u
  {
    if ids == [] then []
    else if ids[0] == u then Without(ids[1..], u)
    else [ids[0]] + Without(ids[1..], u)
  }

  /** `asked` is the request's member list without duplicates, in ascending order. */
  ghost function Create(db: Db, creator: UserId, c: ChatId, asked: seq<UserId>, p: Policy, now: int): (Db, Reply) {
    var ids := Without(asked, creator);
    if ids == [] then (db, NoMembers)
    else if |ids| + 1 > MAX_GROUP_MEMBERS then (db, TooMany)
    else if exists u :: u in ids && u !in p.known then (db, UnknownMember)
    else if FirstIn(ids, p.blocked).Some? then (db, Blocked(FirstIn(ids, p.blocked).value))
    else if !SomeAccept(ids, p) then (db, NobodyAccepts)
    else if c in db.groups then (db, IdTaken)
    else
      var rows := EnsureRows(EnsureRows(map[], {creator}, Owner, now), AutoAdded(ids, p), Member, now);
      (db.(groups := db.groups[c := rows]), Created)
  }

  ghost function AddMembers(db: Db, actor: UserId, c: ChatId, asked: seq<UserId>, p: Policy, now: int): (Db, Reply) {
    var ids := Without(asked, actor);
    if ids == [] then (db, NoMembers)
    else if c !in db.groups then (db, GroupNotFound)
    else if !IsMember(db, actor, c) then (db, Forbidden)
    else
      var rows := db.groups[c];
      var mayInvite := actor in rows && rows[actor].role.Member? && p.membersMayInvite;
      var verdict := Authorize(rows, actor, Invite, None);
      if !mayInvite && !verdict.Allowed? then (db, Denied(verdict))
      else if exists u :: u in ids && u !in p.known then (db, UnknownMember)
      else if |rows| + |ids| > MAX_GROUP_MEMBERS then (db, TooMany)
      else if FirstIn(ids, p.banned).Some? then (db, Banned(FirstIn(ids, p.banned).value))
      else if FirstIn(ids, p.blocked).Some? then (db, Blocked(FirstIn(ids, p.blocked).value))
      else (db.(groups := db.groups[c := EnsureRows(rows, AutoAdded(ids, p), Member, now)]), Added)
  }

  /** Accepting an invite request, or using an invite link that is still good. */
  function JoinChat(db: Db, u: UserId, c: ChatId, now: int): Db {
    if c !in db.groups then db
    else db.(groups := db.groups[c := EnsureRows(db.groups[c], {u}, Member, now)])
  }

  /** `DELETE FROM users`: the foreign key of `chat_members` cascades. */
  function DeleteAccount(db: Db, u: UserId): Db {
    Db(map c | c in db.groups :: db.groups[c] - {u}, set p | p in db.contacts && p.0 != u)
  }

  // ---- the handlers as they run ----

  /** The successor query: one pass that keeps the least row. */
  method SelectSuccessor(rows: Rows, leaver: UserId) returns (s: Option<UserId>)
    ensures s.None? <==> rows.Keys - {leaver} == {}
    ensures s.Some? ==> IsFirst(rows, rows.Keys - {leaver}, s.value)
  {
    s := None;
    var left := rows.Keys - {leaver};
    while left != {}
      invariant left <= rows.Keys - {leaver}
      invariant s.None? ==> left == rows.Keys - {leaver}
      invariant s.Some? ==> IsFirst(rows, rows.Keys - {leaver} - left, s.value)
      decreases left
    {
      var u :| u in left;
      if s.Some? {
        FirstOfMore(rows, rows.Keys - {leaver} - left, s.value, u);
      }
      assert rows.Keys - {leaver} - (left - {u}) == rows.Keys - {leaver} - left + {u};
      if s.None? || NotAfter(rows, u, s.value) {
        s := Some(u);
      }
      left := left - {u};
    }
    if s.Some? {
      assert rows.Keys - {leaver} - left == rows.Keys - {leaver};
    }
  }

  lemma EnsureOneMore(rows: Rows, ids: seq<UserId>, i: nat, role: Role, now: int)
    requires i < |ids|
    ensures var before := EnsureRows(rows, Elements(ids[..i]), role, now);
            EnsureRows(rows, Elements(ids[..i + 1]), role, now)
            == if ids[i] in before then before else before[ids[i] := Row(role, now)]
  {
    assert ids[..i + 1] == ids[..i] + [ids[i]];
    assert Elements(ids[..i + 1]) == Elements(ids[..i]) + {ids[i]};
  }

  class Database {
    var groups: map<ChatId, Rows>
    var contacts: set<(UserId, ChatId)>

    ghost function View(): Db
      reads this
    {
      Db(groups, contacts)
    }

    constructor ()
      ensures View() == Db(map[], {})
    {
      groups, contacts := map[], {};
    }

    method EnsureChatMembers(c: ChatId, ids: seq<UserId>, role: Role, now: int)
      requires c in groups
      modifies `groups
      ensures groups == old(groups)[c := EnsureRows(old(groups)[c], Elements(ids), role, now)]
    {
      var i := 0;
      assert EnsureRows(groups[c], {}, role, now) == groups[c];
      assert groups == groups[c := groups[c]];
      while i < |ids|
        invariant 0 <= i <= |ids|
        invariant c in groups
        invariant groups == old(groups)[c := EnsureRows(old(groups)[c], Elements(ids[..i]), role, now)]
      {
        EnsureOneMore(old(groups)[c], ids, i, role, now);
        if ids[i] !in groups[c] {
          groups := groups[c := groups[c][ids[i] := Row(role, now)]];
        }
        i := i + 1;
      }
      assert ids[..i] == ids;
    }

    method RemoveMemberWithCleanup(c: ChatId, u: UserId)
      requires c in groups
      modifies this
      ensures View() == RemoveRow(old(View()), u, c)
    {
      groups := groups[c := groups[c] - {u}];
      contacts := contacts - {(u, c)};
    }

    method SetGroupMemberRole(actor: UserId, c: ChatId, target: UserId, next: Role) returns (reply: Reply)
      modifies `groups
      ensures (View(), reply) == SetRole(old(View()), actor, c, target, next)
    {
      if c !in groups { return GroupNotFound; }
      if actor !in groups[c] { return Forbidden; }
      if target !in groups[c] { return MemberNotFound; }
      var current := groups[c][target].role;
      if current == next { return Unchanged; }
      var role := groups[c][actor].role;
      if next.Owner? {
        if !role.Owner? { return OnlyOwnerTransfers; }
        if target == actor { return AlreadyOwner; }
        groups := groups[c := WithRole(groups[c], actor, Admin)];
        groups := groups[c := WithRole(groups[c], target, Owner)];
        assert groups == old(groups)[c := groups[c]];
      } else {
        var verdict := Authorize(groups[c], actor, ChangeRole(next), Some(target));
        if !verdict.Allowed? { return Denied(verdict); }
        if current.Owner? { return OwnerMustTransfer; }
        if !role.Owner? && next.Admin? { return OnlyOwnerAppoints; }
        groups := groups[c := WithRole(groups[c], target, next)];
      }
      reply := RoleSet;
    }

    method LeaveGroupChat(u: UserId, c: ChatId) returns (reply: Reply)
      modifies this
      ensures (View(), reply) == Leave(old(View()), u, c)
    {
      if c !in groups { return GroupNotFound; }
      if u !in groups[c] && (u, c) !in contacts { return Forbidden; }
      var role := if u in groups[c] then groups[c][u].role else Member;
      var newOwner := None;
      if role.Owner? && |Owners(groups[c])| <= 1 {
        if |groups[c]| <= 1 {
          contacts := set p | p in contacts && p.1 != c;
          groups := groups - {c};
          return Disbanded;
        }
        OthersRemain(groups[c], u);
        newOwner := SelectSuccessor(groups[c], u);
        if newOwner.Some? {
          FirstUnique(groups[c], groups[c].Keys - {u}, newOwner.value, Successor(groups[c], u));
          groups := groups[c := WithRole(groups[c], newOwner.value, Owner)];
        }
      }
      RemoveMemberWithCleanup(c, u);
      reply := Left(newOwner);
    }

    method RemoveGroupMember(actor: UserId, c: ChatId, target: UserId, action: Action) returns (reply: Reply)
      modifies this
      ensures (View(), reply) == Expel(old(View()), actor, c, target, action)
    {
      if c !in groups { return GroupNotFound; }
      if actor !in groups[c] && (actor, c) !in contacts { return Forbidden; }
      var verdict := Authorize(groups[c], actor, action, Some(target));
      if !verdict.Allowed? { return Denied(verdict); }
      if target !in groups[c] && (target, c) !in contacts { return MemberNotFound; }
      RemoveMemberWithCleanup(c, target);
      reply := Removed;
    }

    method CreateGroupChat(creator: UserId, c: ChatId, asked: seq<UserId>, p: Policy, now: int) returns (reply: Reply)
      modifies `groups
      ensures (View(), reply) == Create(old(View()), creator, c, asked, p, now)
    {
      hide SomeAccept, FirstIn, EnsureRows, AutoAdded;
      var ids := Without(asked, creator);
      if ids == [] { return NoMembers; }
      if |ids| + 1 > MAX_GROUP_MEMBERS { return TooMany; }
      if exists u :: u in ids && u !in p.known { return UnknownMember; }
      var stop, added, requested, _ := Classify(ids, p);
      if stop.Some? { return Blocked(stop.value); }
      if added == [] && requested == [] { return NobodyAccepts; }
      if c in groups { return IdTaken; }
      groups := groups[c := map[]];
      EnsureChatMembers(c, [creator], Owner, now);
      EnsureChatMembers(c, added, Member, now);
      assert Elements([creator]) == {creator};
      assert Elements(added) == AutoAdded(ids, p);
      assert groups == old(groups)[c := groups[c]];
      reply := Created;
    }

    method AddGroupMembers(actor: UserId, c: ChatId, asked: seq<UserId>, p: Policy, now: int) returns (reply: Reply)
      modifies `groups
      ensures (View(), reply) == AddMembers(old(View()), actor, c, asked, p, now)
    {
      var ids := Without(asked, actor);
      if ids == [] { return NoMembers; }
      if c !in groups { return GroupNotFound; }
      if actor !in groups[c] && (actor, c) !in contacts { return Forbidden; }
      var mayInvite := actor in groups[c] && groups[c][actor].role.Member? && p.membersMayInvite;
      if !mayInvite {
        var verdict := Authorize(groups[c], actor, Invite, None);
        if !verdict.Allowed? { return Denied(verdict); }
      }
      if exists u :: u in ids && u !in p.known { return UnknownMember; }
      if |groups[c]| + |ids| > MAX_GROUP_MEMBERS { return TooMany; }
      var ban := FirstIn(ids, p.banned);
      if ban.Some? { return Banned(ban.value); }
      var stop, added, _, _ := Classify(ids, p);
      if stop.Some? { return Blocked(stop.value); }
      EnsureChatMembers(c, added, Member, now);
      assert Elements(added) == AutoAdded(ids, p);
      reply := Added;
    }
  }

  /** The candidate loop: it stops at the first blocked one, else sorts them into three lists. */
  method Classify(ids: seq<UserId>, p: Policy)
    returns (stop: Option<UserId>, added: seq<UserId>, requested: seq<UserId>, denied: seq<UserId>)
    ensures stop == FirstIn(ids, p.blocked)
    ensures stop.None? ==> forall u :: u in added <==> u in AutoAdded(ids, p)
    ensures stop.None? ==> forall u :: u in requested <==> u in ids && u in p.ask
    ensures stop.None? ==> multiset(added) + multiset(requested) + multiset(denied) == multiset(ids)
    ensures stop.None? ==> ((added == [] && requested == []) <==> !SomeAccept(ids, p))
  {
    added, requested, denied := [], [], [];
    var i := 0;
    while i < |ids|
      invariant 0 <= i <= |ids|
      invariant FirstIn(ids, p.blocked) == FirstIn(ids[i..], p.blocked)
      invariant forall u :: u in added <==> u in ids[..i] && u !in p.ask && u !in p.deny
      invariant forall u :: u in requested <==> u in ids[..i] && u in p.ask
      invariant multiset(added) + multiset(requested) + multiset(denied) == multiset(ids[..i])
    {
      assert ids[i..][0] == ids[i] && ids[i..][1..] == ids[i + 1..];
      if ids[i] in p.blocked { return Some(ids[i]), added, requested, denied; }
      assert ids[..i + 1] == ids[..i] + [ids[i]];
      if ids[i] in p.ask {
        requested := requested + [ids[i]];
      } else if ids[i] in p.deny {
        denied := denied + [ids[i]];
      } else {
        added := added + [ids[i]];
      }
      i := i + 1;
    }
    assert ids[..i] == ids;
    stop := None;
    if added != [] {
      assert added[0] in AutoAdded(ids, p);
    }
    if requested != [] {
      assert requested[0] in requested;
    }
  }
}
