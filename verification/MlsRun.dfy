/**
 One chat's group over whole runs: members create, commit, invite, join and process each other's
 packets in any order, some of them late, twice or never.
 */
module MlsRun {
  import opened Common
  import opened Crypto
  import opened Roster
  import opened Mls

  datatype World = World(
    chatId: string,
    members: map<nat, GroupState>,
    commits: set<Commit>,
    welcomes: set<Welcome>)

  datatype Step =
    | Create(who: nat, key: string)
    | Committing(who: nat, newMembers: seq<string>, key: string)
    | Processing(who: nat, commit: Commit)
    | Inviting(who: nat, pkg: KeyPackage, key: string, ephemeral: nat, iv: nat)
    | Joining(who: nat, welcome: Welcome, init: nat)

  predicate Enabled(w: World, step: Step) {
    match step
    case Create(who, key) => IsKey(key)
    case Committing(who, newMembers, _) => who in w.members && IsRoster(newMembers)
    case Processing(who, commit) => who in w.members && commit in w.commits
    case Inviting(who, pkg, _, _, _) => who in w.members && IsKey(pkg.body.identityKey)
    case Joining(who, welcome, _) => welcome in w.welcomes
  }

  /** A refused packet leaves its reader where it was. */
  function Next(w: World, step: Step): World
    requires Enabled(w, step)
  {
    match step
    case Create(who, key) => w.(members := w.members[who := CreateGroup(w.chatId, key)])
    case Committing(who, newMembers, key) =>
      var (commit, st) := CreateCommit(w.members[who], newMembers, key);
      w.(members := w.members[who := st], commits := w.commits + {commit})
    case Processing(who, commit) =>
      (match ProcessCommit(w.members[who], commit, Some(commit.sender))
       case Ok(st) => w.(members := w.members[who := st])
       case Err(_) => w)
    case Inviting(who, pkg, key, ephemeral, iv) =>
      (match CreateWelcome(w.members[who], pkg, key, ephemeral, iv)
       case Ok((welcome, st)) => w.(members := w.members[who := st], welcomes := w.welcomes + {welcome})
       case Err(_) => w)
    case Joining(who, welcome, init) =>
      (match ProcessWelcome(welcome, init, Some(welcome.sender))
       case Ok(st) => w.(members := w.members[who := st])
       case Err(_) => w)
  }

  predicate ValidRun(w: World, steps: seq<Step>)
    decreases |steps|
  {
    steps != [] ==> Enabled(w, steps[0]) && ValidRun(Next(w, steps[0]), steps[1..])
  }

  function Run(w: World, steps: seq<Step>): World
    requires ValidRun(w, steps)
    decreases |steps|
  {
    if steps == [] then w else Run(Next(w, steps[0]), steps[1..])
  }

  function Start(chatId: string): World {
    World(chatId, map[], {}, {})
  }

  ghost predicate Good(chatId: string, st: GroupState) {
    Recomputable(st) && st.chatId == chatId && IsRoster(st.members)
  }

  ghost predicate Inv(w: World) {
    && (forall who <- w.members :: Good(w.chatId, w.members[who]))
    && (forall c <- w.commits :: c.body.newEpoch == c.body.epoch + 1
                              && c.body.rosterHash == RosterHashOf(c.newMembers) && IsRoster(c.newMembers))
    && (forall c <- w.welcomes :: Good(w.chatId, c.body.ct.payload))
  }

  lemma StepKeepsInv(w: World, step: Step)
    requires Inv(w) && Enabled(w, step)
    ensures Inv(Next(w, step))
  {
    hide RosterHashOf;
    match step
    case Create(who, key) => assert forall k <- [key] :: k == key;
    case Inviting(who, pkg, _, _, _) =>
      var roster := w.members[who].members + [pkg.body.identityKey];
      assert forall k <- roster :: k in w.members[who].members || k == pkg.body.identityKey;
      assert IsRoster(roster);
    case _ =>
  }

  lemma {:induction false} RunKeepsInv(w: World, steps: seq<Step>)
    requires Inv(w) && ValidRun(w, steps)
    ensures Inv(Run(w, steps)) && Run(w, steps).chatId == w.chatId
    decreases |steps|
  {
    if steps != [] {
      StepKeepsInv(w, steps[0]);
      RunKeepsInv(Next(w, steps[0]), steps[1..]);
    }
  }

  /**
   After any run, any two members have the same state exactly when they are at the same epoch with
   the same roster list, and read each other's messages exactly when the rosters agree up to order.
   */
  lemma GroupAgreement(chatId: string, steps: seq<Step>, a: nat, b: nat, text: string, sender: string, nonce: nat, iv: nat)
    requires ValidRun(Start(chatId), steps)
    requires var w := Run(Start(chatId), steps); a in w.members && b in w.members
    ensures var w := Run(Start(chatId), steps);
            var sa, sb := w.members[a], w.members[b];
            && (sa == sb <==> sa.epoch == sb.epoch && sa.members == sb.members)
            && (DecryptGroupMessage(sb, EncryptGroupMessage(sa, text, sender, nonce, iv), Some(sender)) == Ok(Text(text))
                <==> sa.epoch == sb.epoch && multiset(sa.members) == multiset(sb.members))
  {
    RunKeepsInv(Start(chatId), steps);
    var w := Run(Start(chatId), steps);
    assert Good(chatId, w.members[a]) && Good(chatId, w.members[b]);
    MessageReadable(w.members[a], w.members[b], text, sender, nonce, iv);
  }

  /** No packet of the run can be applied twice. */
  lemma CommitsApplyOnce(chatId: string, steps: seq<Step>, commit: Commit, st: GroupState)
    requires ValidRun(Start(chatId), steps) && commit in Run(Start(chatId), steps).commits
    requires ProcessCommit(st, commit, Some(commit.sender)).Ok?
    ensures ProcessCommit(ProcessCommit(st, commit, Some(commit.sender)).value, commit, Some(commit.sender)) == Err(EpochMismatch)
  {
    RunKeepsInv(Start(chatId), steps);
    ReplayRefused(st, commit, Some(commit.sender));
  }

  // ---------- Histories ----------

  /** A member's way through the epochs: each change of roster, made or followed by either packet. */
  datatype Change =
    | ByCommit(newMembers: seq<string>, made: bool, key: string)
    | ByInvitation(pkg: KeyPackage, key: string, ephemeral: nat, iv: nat)
    | ByJoining(welcome: Welcome, init: nat)

  /** The roster a change leads to. */
  function RosterAfter(members: seq<string>, change: Change): seq<string> {
    match change
    case ByCommit(newMembers, _, _) => newMembers
    case ByInvitation(pkg, _, _, _) => members + [pkg.body.identityKey]
    case ByJoining(welcome, _) => welcome.body.ct.payload.members
  }

  /** An honest change: a followed commit was made from the same epoch of the chat, and so on. */
  function Follow(st: GroupState, change: Change): Result<GroupState, Error> {
    match change
    case ByCommit(newMembers, true, key) => Ok(CreateCommit(st, newMembers, key).1)
    case ByCommit(newMembers, false, key) => ProcessCommit(st, CreateCommit(st, newMembers, key).0, Some(key))
    case ByInvitation(pkg, key, ephemeral, iv) =>
      (match CreateWelcome(st, pkg, key, ephemeral, iv)
       case Ok((_, next)) => Ok(next)
       case Err(e) => Err(e))
    case ByJoining(welcome, init) => ProcessWelcome(welcome, init, Some(welcome.sender))
  }

  /** The joiner's Welcome was made from the history so far. */
  ghost predicate Honest(st: GroupState, change: Change) {
    match change
    case ByCommit(_, _, _) => true
    case ByInvitation(pkg, _, _, _) => VerifyKeyPackage(pkg)
    case ByJoining(welcome, init) =>
      exists pkg, key, ephemeral, iv ::
        && VerifyKeyPackage(pkg) && pkg.body.initKey == PublicKey(init)
        && CreateWelcome(st, pkg, key, ephemeral, iv).Ok?
        && CreateWelcome(st, pkg, key, ephemeral, iv).value.0 == welcome
  }

  lemma FollowGivesStateAt(st: GroupState, change: Change)
    requires Recomputable(st) && Honest(st, change)
    ensures Follow(st, change) == Ok(StateAt(st.chatId, st.epoch + 1, RosterAfter(st.members, change)))
  {
    if change.ByJoining? {
      var pkg, key, ephemeral, iv :|
        && VerifyKeyPackage(pkg) && pkg.body.initKey == PublicKey(change.init)
        && CreateWelcome(st, pkg, key, ephemeral, iv).Ok?
        && CreateWelcome(st, pkg, key, ephemeral, iv).value.0 == change.welcome;
      DhCommutes(ephemeral, change.init);
    }
  }

  /** The rosters a member goes through. */
  function History(members: seq<string>, changes: seq<Change>): seq<seq<string>>
    decreases |changes|
  {
    if changes == [] then []
    else [RosterAfter(members, changes[0])] + History(RosterAfter(members, changes[0]), changes[1..])
  }

  function FollowAll(st: GroupState, changes: seq<Change>): Result<GroupState, Error>
    decreases |changes|
  {
    if changes == [] then Ok(st)
    else
      match Follow(st, changes[0])
      case Ok(next) => FollowAll(next, changes[1..])
      case Err(e) => Err(e)
  }

  ghost predicate AllHonest(st: GroupState, changes: seq<Change>)
    decreases |changes|
  {
    changes != [] ==>
      && Honest(st, changes[0])
      && (Follow(st, changes[0]).Ok? ==> AllHonest(Follow(st, changes[0]).value, changes[1..]))
  }

  /**
   Members who went through the same rosters from the same state, each change by whichever packet,
   hold equal states, and those can be recomputed from epoch and roster alone.
   */
  lemma {:induction false} SameHistorySameState(st: GroupState, xs: seq<Change>, ys: seq<Change>)
    requires Recomputable(st) && AllHonest(st, xs) && AllHonest(st, ys)
    requires History(st.members, xs) == History(st.members, ys)
    ensures FollowAll(st, xs) == FollowAll(st, ys)
    ensures FollowAll(st, xs).Ok? && Recomputable(FollowAll(st, xs).value)
    ensures FollowAll(st, xs).value.epoch == st.epoch + |xs|
    decreases |xs|
  {
    if xs == [] {
      assert ys == [];
    } else {
      assert History(st.members, xs)[0] == History(st.members, ys)[0];
      assert History(st.members, xs)[1..] == History(st.members, ys)[1..];
      FollowGivesStateAt(st, xs[0]);
      FollowGivesStateAt(st, ys[0]);
      SameHistorySameState(Follow(st, xs[0]).value, xs[1..], ys[1..]);
    }
  }
}
