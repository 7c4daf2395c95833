/**
 The MLS-style group operations of static/mls-client.js.

 Every operation returns a new state and leaves its argument alone.  Hashing and key derivation are
 free constructors, a signature names its signer and what it covers, and a private signing key is
 named by its public key.
 */
module Mls {
  import opened Common
  import opened Crypto
  import opened Roster

  // ---------- Derivations ----------

  datatype RosterHash = Sha256(text: string)
  datatype EpochSecret = EpochSecret(groupId: string, epoch: nat, rosterHash: RosterHash)
  datatype GroupMessageKey = GroupMessageKey(secret: EpochSecret, nonce: nat)
  datatype WrappingKey = WrappingKey(dh: Secret)
  datatype Signature<T> = Signature(signer: string, covers: T)

  function RosterHashOf(members: seq<string>): RosterHash {
    Sha256(RosterText(members))
  }

  // ---------- States and messages ----------

  datatype GroupState = GroupState(
    groupId: string,
    chatId: string,
    epoch: nat,
    members: seq<string>,
    epochSecret: EpochSecret,
    rosterHash: RosterHash)

  datatype KeyPackageBody = KeyPackageBody(userId: nat, identityKey: string, initKey: PublicKey, createdAt: nat)
  datatype KeyPackage = KeyPackage(body: KeyPackageBody, signature: Option<Signature<KeyPackageBody>>)

  datatype Wrapped = Wrapped(key: WrappingKey, iv: nat, payload: GroupState)
  datatype WelcomeBody = WelcomeBody(groupId: string, epoch: nat, recipientInitKey: PublicKey, ct: Wrapped, iv: nat)
  datatype Welcome = Welcome(body: WelcomeBody, sender: string, ephemeralKey: PublicKey, sig: Signature<WelcomeBody>)

  datatype CommitBody = CommitBody(groupId: string, epoch: nat, newEpoch: nat, rosterHash: RosterHash)
  datatype Commit = Commit(body: CommitBody, newMembers: seq<string>, sender: string, sig: Signature<CommitBody>)

  datatype SealedText = SealedText(key: GroupMessageKey, iv: nat, text: string)
  datatype PayloadBody = PayloadBody(v: nat, proto: string, groupId: string, epoch: nat, nonce: nat, ct: SealedText, iv: nat)
  datatype Payload = Payload(body: PayloadBody, sender: Option<string>, sig: Option<Signature<PayloadBody>>)

  datatype Error =
    | InvalidKeyPackage | InvalidSignature | CannotUnwrap
    | EpochMismatch | RosterHashMismatch
    | NotMls | GroupMismatch

  datatype Reading = Text(text: string) | SignatureRejected | Unreadable

  predicate Verify<T(==)>(key: string, covers: T, sig: Signature<T>) {
    sig == Signature(key, covers)
  }

  /** A signature is only checked when the caller names the sender. */
  predicate Accepts<T(==)>(sender: Option<string>, covers: T, sig: Signature<T>) {
    sender.Some? && sender.value != "" ==> Verify(sender.value, covers, sig)
  }

  // ---------- Operations ----------

  function GroupIdOf(chatId: string): string {
    "sun-mls-" + chatId
  }

  function CreateGroup(chatId: string, creator: string): GroupState {
    var hash := RosterHashOf([creator]);
    GroupState(GroupIdOf(chatId), chatId, 0, [creator], EpochSecret(GroupIdOf(chatId), 0, hash), hash)
  }

  /** Signed with the private identity key that belongs to `identityKey`. */
  function GenerateKeyPackage(userId: nat, identityKey: string, init: nat, now: nat): KeyPackage {
    var body := KeyPackageBody(userId, identityKey, PublicKey(init), now);
    KeyPackage(body, Some(Signature(identityKey, body)))
  }

  predicate VerifyKeyPackage(pkg: KeyPackage) {
    pkg.signature.Some? && pkg.body.identityKey != "" && Verify(pkg.body.identityKey, pkg.body, pkg.signature.value)
  }

  function CreateWelcome(st: GroupState, pkg: KeyPackage, inviter: string, ephemeral: nat, iv: nat)
    : Result<(Welcome, GroupState), Error>
  {
    if !VerifyKeyPackage(pkg) then Err(InvalidKeyPackage)
    else
      var wrappingKey := WrappingKey(Dh(ephemeral, pkg.body.initKey));
      var newMembers := st.members + [pkg.body.identityKey];
      var newHash := RosterHashOf(newMembers);
      var newEpoch := st.epoch + 1;
      var newSecret := EpochSecret(st.groupId, newEpoch, newHash);
      var payload := GroupState(st.groupId, st.chatId, newEpoch, newMembers, newSecret, newHash);
      var body := WelcomeBody(st.groupId, newEpoch, pkg.body.initKey, Wrapped(wrappingKey, iv, payload), iv);
      Ok((Welcome(body, inviter, PublicKey(ephemeral), Signature(inviter, body)),
          st.(epoch := newEpoch, members := newMembers, epochSecret := newSecret, rosterHash := newHash)))
  }

  function ProcessWelcome(welcome: Welcome, myInit: nat, sender: Option<string>): Result<GroupState, Error> {
    if !Accepts(sender, welcome.body, welcome.sig) then Err(InvalidSignature)
    else
      var wrappingKey := WrappingKey(Dh(myInit, welcome.ephemeralKey));
      if welcome.body.ct.key == wrappingKey && welcome.body.ct.iv == welcome.body.iv then Ok(welcome.body.ct.payload)
      else Err(CannotUnwrap)
  }

  function CreateCommit(st: GroupState, newMembers: seq<string>, committer: string): (Commit, GroupState) {
    var newEpoch := st.epoch + 1;
    var newHash := RosterHashOf(newMembers);
    var newSecret := EpochSecret(st.groupId, newEpoch, newHash);
    var body := CommitBody(st.groupId, st.epoch, newEpoch, newHash);
    (Commit(body, newMembers, committer, Signature(committer, body)),
     st.(epoch := newEpoch, members := newMembers, epochSecret := newSecret, rosterHash := newHash))
  }

  function ProcessCommit(st: GroupState, commit: Commit, sender: Option<string>): Result<GroupState, Error> {
    if commit.body.epoch != st.epoch then Err(EpochMismatch)
    else if !Accepts(sender, commit.body, commit.sig) then Err(InvalidSignature)
    else if RosterHashOf(commit.newMembers) != commit.body.rosterHash then Err(RosterHashMismatch)
    else
      Ok(st.(epoch := commit.body.newEpoch,
             members := commit.newMembers,
             epochSecret := EpochSecret(st.groupId, commit.body.newEpoch, commit.body.rosterHash),
             rosterHash := commit.body.rosterHash))
  }

  function EncryptGroupMessage(st: GroupState, text: string, sender: string, nonce: nat, iv: nat): Payload {
    var key := GroupMessageKey(st.epochSecret, nonce);
    var body := PayloadBody(3, "mls", st.groupId, st.epoch, nonce, SealedText(key, iv, text), iv);
    Payload(body, Some(sender), Some(Signature(sender, body)))
  }

  function DecryptGroupMessage(st: GroupState, payload: Payload, sender: Option<string>): Result<Reading, Error> {
    var body := payload.body;
    if body.v != 3 || body.proto != "mls" then Err(NotMls)
    else if body.groupId != st.groupId then Err(GroupMismatch)
    else if body.epoch != st.epoch then Err(EpochMismatch)
    else
      var verifyKey := if sender.Some? && sender.value != "" then sender else payload.sender;
      if payload.sig.Some? && !Accepts(verifyKey, body, payload.sig.value) then Ok(SignatureRejected)
      else if body.ct.key == GroupMessageKey(st.epochSecret, body.nonce) && body.ct.iv == body.iv then Ok(Text(body.ct.text))
      else Ok(Unreadable)
  }

  // ---------- States are determined by epoch and roster ----------

  /** The state every honest member of the chat has at this epoch with this roster. */
  function StateAt(chatId: string, epoch: nat, members: seq<string>): GroupState {
    var hash := RosterHashOf(members);
    GroupState(GroupIdOf(chatId), chatId, epoch, members, EpochSecret(GroupIdOf(chatId), epoch, hash), hash)
  }

  /** `rosterHash` and `epochSecret` can be recomputed from the rest of the state. */
  ghost predicate Recomputable(st: GroupState) {
    st == StateAt(st.chatId, st.epoch, st.members)
  }

  /**
   The committer, a member who processes the commit, the inviter and the joiner all arrive at the
   same state when the roster grows by the same key.
   */
  lemma FourPathsMeet(st: GroupState, pkg: KeyPackage, init: nat, committer: string, inviter: string, ephemeral: nat, iv: nat)
    requires Recomputable(st) && VerifyKeyPackage(pkg) && pkg.body.initKey == PublicKey(init)
    ensures var next := StateAt(st.chatId, st.epoch + 1, st.members + [pkg.body.identityKey]);
            var (commit, committed) := CreateCommit(st, st.members + [pkg.body.identityKey], committer);
            var welcomed := CreateWelcome(st, pkg, inviter, ephemeral, iv);
            && committed == next
            && ProcessCommit(st, commit, Some(committer)) == Ok(next)
            && welcomed.Ok? && welcomed.value.1 == next
            && ProcessWelcome(welcomed.value.0, init, Some(inviter)) == Ok(next)
  {
    DhCommutes(ephemeral, init);
  }

  /** Two members share the epoch secret exactly when they agree on epoch and, up to order, roster. */
  lemma SecretsAgree(a: GroupState, b: GroupState)
    requires Recomputable(a) && Recomputable(b) && a.chatId == b.chatId
    requires IsRoster(a.members) && IsRoster(b.members)
    ensures a.epochSecret == b.epochSecret <==> a.epoch == b.epoch && multiset(a.members) == multiset(b.members)
  {
    Canonical(a.members, b.members);
  }

  /** A member reads another's message exactly when they share the epoch and, up to order, the roster. */
  lemma MessageReadable(a: GroupState, b: GroupState, text: string, sender: string, nonce: nat, iv: nat)
    requires Recomputable(a) && Recomputable(b) && a.chatId == b.chatId
    requires IsRoster(a.members) && IsRoster(b.members)
    ensures DecryptGroupMessage(b, EncryptGroupMessage(a, text, sender, nonce, iv), Some(sender)) == Ok(Text(text))
       <==> a.epoch == b.epoch && multiset(a.members) == multiset(b.members)
  {
    SecretsAgree(a, b);
  }

  // ---------- Signatures ----------

  /** No sender is named: the argument is missing or empty. */
  predicate Unnamed(sender: Option<string>) {
    sender == None || sender == Some("")
  }

  /** A signature that is present was made over this body by the sender named, or claimed if none is. */
  ghost predicate SignatureFits(payload: Payload, named: Option<string>) {
    payload.sig.Some? ==>
      && (!Unnamed(named) ==> payload.sig == Some(Signature(named.value, payload.body)))
      && (Unnamed(named) && !Unnamed(payload.sender) ==> payload.sig == Some(Signature(payload.sender.value, payload.body)))
  }

  /** The outer fields are those of a message for this group at this epoch. */
  predicate ForState(st: GroupState, body: PayloadBody) {
    body.v == 3 && body.proto == "mls" && body.groupId == st.groupId && body.epoch == st.epoch
  }

  /** What a group message gives to its reader, whatever it contains. */
  lemma ReadExactly(st: GroupState, payload: Payload, named: Option<string>)
    ensures var r := DecryptGroupMessage(st, payload, named);
            && (r.Err? <==> !ForState(st, payload.body))
            && (r == Ok(SignatureRejected) <==> ForState(st, payload.body) && !SignatureFits(payload, named))
            && (forall text :: r == Ok(Text(text)) <==>
                  && ForState(st, payload.body) && SignatureFits(payload, named)
                  && payload.body.ct == SealedText(GroupMessageKey(st.epochSecret, payload.body.nonce), payload.body.iv, text))
            && (r == Err(NotMls) <==> payload.body.v != 3 || payload.body.proto != "mls")
            && (r == Err(GroupMismatch) ==> payload.body.groupId != st.groupId)
            && (r == Err(EpochMismatch) ==> payload.body.groupId == st.groupId && payload.body.epoch != st.epoch)
  {
    var body := payload.body;
    assert forall text ::
        body.ct == SealedText(GroupMessageKey(st.epochSecret, body.nonce), body.iv, text)
        <==> body.ct.key == GroupMessageKey(st.epochSecret, body.nonce) && body.ct.iv == body.iv && body.ct.text == text;
  }

  /**
   A message read under a sender's name was sent by that sender to the reader's epoch and roster: of
   what members encrypt, exactly this is read, and under another name it is rejected.
   */
  lemma ReadUnderName(
    a: GroupState, b: GroupState, text: string, sender: string, named: Option<string>, nonce: nat, iv: nat)
    requires Recomputable(a) && Recomputable(b) && a.chatId == b.chatId
    requires IsRoster(a.members) && IsRoster(b.members)
    ensures var r := DecryptGroupMessage(b, EncryptGroupMessage(a, text, sender, nonce, iv), named);
            && (r == Ok(Text(text)) <==>
                  && a.epoch == b.epoch && multiset(a.members) == multiset(b.members)
                  && (Unnamed(named) || named == Some(sender)))
            && (r == Ok(SignatureRejected) <==> a.epoch == b.epoch && !Unnamed(named) && named != Some(sender))
  {
    SecretsAgree(a, b);
    ReadExactly(b, EncryptGroupMessage(a, text, sender, nonce, iv), named);
  }

  /** Nothing in a signed message can be changed, neither its body nor, when none is named, its sender. */
  lemma ChangedMessageRejected(
    a: GroupState, b: GroupState, text: string, sender: string, named: Option<string>, nonce: nat, iv: nat,
    body: PayloadBody, claimed: Option<string>)
    requires ForState(b, body) && (!Unnamed(named) || !Unnamed(claimed))
    ensures var sent := EncryptGroupMessage(a, text, sender, nonce, iv);
            var signer := if Unnamed(named) then claimed else named;
            DecryptGroupMessage(b, sent.(body := body, sender := claimed), named) == Ok(SignatureRejected)
            <==> body != sent.body || signer != Some(sender)
  {
    var sent := EncryptGroupMessage(a, text, sender, nonce, iv);
    ReadExactly(b, sent.(body := body, sender := claimed), named);
  }

  /** The key packages that verify are those that the owner of a non-empty identity key made. */
  lemma KeyPackageExact(pkg: KeyPackage)
    ensures VerifyKeyPackage(pkg) <==>
              && pkg.body.identityKey != ""
              && pkg == GenerateKeyPackage(pkg.body.userId, pkg.body.identityKey, pkg.body.initKey.scalar, pkg.body.createdAt)
  {
    assert pkg.body.initKey == PublicKey(pkg.body.initKey.scalar);
    assert pkg == KeyPackage(pkg.body, pkg.signature);
  }

  lemma DhDiffers(a: nat, b: nat, pub: PublicKey)
    ensures Dh(a, pub) == Dh(b, pub) <==> a == b
  {
  }

  /** What processing a Welcome gives, whatever it contains. */
  lemma WelcomeExactly(welcome: Welcome, myInit: nat, named: Option<string>)
    ensures var r := ProcessWelcome(welcome, myInit, named);
            && (r == Err(InvalidSignature) <==> !Unnamed(named) && welcome.sig != Signature(named.value, welcome.body))
            && (forall st :: r == Ok(st) <==>
                  && (Unnamed(named) || welcome.sig == Signature(named.value, welcome.body))
                  && welcome.body.ct == Wrapped(WrappingKey(Dh(myInit, welcome.ephemeralKey)), welcome.body.iv, st))
  {
    var key := WrappingKey(Dh(myInit, welcome.ephemeralKey));
    assert forall st ::
        welcome.body.ct == Wrapped(key, welcome.body.iv, st)
        <==> welcome.body.ct.key == key && welcome.body.ct.iv == welcome.body.iv && welcome.body.ct.payload == st;
  }

  /**
   An invitation is made exactly for a package that verifies, and opened exactly with the private key
   of that package, under no name or the inviter's.
   */
  lemma WelcomeForOne(
    st: GroupState, pkg: KeyPackage, inviter: string, ephemeral: nat, iv: nat, myInit: nat, named: Option<string>)
    ensures CreateWelcome(st, pkg, inviter, ephemeral, iv).Ok? <==> VerifyKeyPackage(pkg)
    ensures VerifyKeyPackage(pkg) ==>
              (ProcessWelcome(CreateWelcome(st, pkg, inviter, ephemeral, iv).value.0, myInit, named).Ok?
               <==> pkg.body.initKey == PublicKey(myInit) && (Unnamed(named) || named == Some(inviter)))
  {
    if VerifyKeyPackage(pkg) {
      var welcome := CreateWelcome(st, pkg, inviter, ephemeral, iv).value.0;
      WelcomeExactly(welcome, myInit, named);
      DhCommutes(ephemeral, pkg.body.initKey.scalar);
      DhDiffers(myInit, pkg.body.initKey.scalar, PublicKey(ephemeral));
    }
  }

  /** A commit is accepted exactly when epoch, signature and roster hash fit. */
  lemma CommitAccepted(st: GroupState, members: seq<string>, commit: Commit, sender: string)
    requires sender != "" && IsRoster(members) && IsRoster(commit.newMembers)
    requires commit.body.rosterHash == RosterHashOf(members)
    ensures ProcessCommit(st, commit, Some(sender)).Ok?
       <==> commit.body.epoch == st.epoch && commit.sig == Signature(sender, commit.body)
            && multiset(commit.newMembers) == multiset(members)
  {
    Canonical(commit.newMembers, members);
  }

  /**
   The group of a commit is never compared: a member of `b`'s chat accepts a commit made in `a`'s
   chat exactly when the epochs are equal, and moves to that roster within the chat of `b`.
   */
  lemma CommitOfAnyGroup(a: GroupState, b: GroupState, members: seq<string>, committer: string)
    requires Recomputable(b)
    ensures var commit := CreateCommit(a, members, committer).0;
            && (ProcessCommit(b, commit, Some(committer)).Ok? <==> a.epoch == b.epoch)
            && (a.epoch == b.epoch ==>
                  ProcessCommit(b, commit, Some(committer)) == Ok(StateAt(b.chatId, b.epoch + 1, members)))
  {
  }

  /** After such a commit `b` reads a member `c` of its own chat exactly when `c` took the same step. */
  lemma CommitOfAnyGroupCutsOff(
    a: GroupState, b: GroupState, c: GroupState, members: seq<string>, committer: string,
    text: string, sender: string, nonce: nat, iv: nat)
    requires Recomputable(b) && Recomputable(c) && b.chatId == c.chatId && a.epoch == b.epoch
    requires IsRoster(members) && IsRoster(c.members)
    ensures var moved := ProcessCommit(b, CreateCommit(a, members, committer).0, Some(committer));
            && moved.Ok?
            && (DecryptGroupMessage(moved.value, EncryptGroupMessage(c, text, sender, nonce, iv), Some(sender))
                == Ok(Text(text))
                <==> c.epoch == b.epoch + 1 && multiset(c.members) == multiset(members))
  {
    CommitOfAnyGroup(a, b, members, committer);
    MessageReadable(c, StateAt(b.chatId, b.epoch + 1, members), text, sender, nonce, iv);
  }

  /** Two chats just created: the first commit of one is accepted in the other, whose members lose touch. */
  lemma CommitCrossesChats(alice: string, bob: string, text: string, nonce: nat, iv: nat)
    requires IsRoster([alice]) && IsRoster([bob])
    ensures var first, second := CreateGroup("1", alice), CreateGroup("2", bob);
            var moved := ProcessCommit(second, CreateCommit(first, [alice], alice).0, Some(alice));
            && moved == Ok(StateAt("2", 1, [alice]))
            && moved.value.groupId != first.groupId
            && DecryptGroupMessage(moved.value, EncryptGroupMessage(second, text, bob, nonce, iv), Some(bob))
               != Ok(Text(text))
  {
    var first, second := CreateGroup("1", alice), CreateGroup("2", bob);
    CommitOfAnyGroup(first, second, [alice], alice);
    CommitOfAnyGroupCutsOff(first, second, second, [alice], alice, text, bob, nonce, iv);
    assert GroupIdOf("1")[8] == '1' && GroupIdOf("2")[8] == '2';
  }

  /** Applying a commit a second time is refused exactly when it moves to another epoch. */
  lemma ReplayRefused(st: GroupState, commit: Commit, sender: Option<string>)
    requires ProcessCommit(st, commit, sender).Ok?
    ensures ProcessCommit(ProcessCommit(st, commit, sender).value, commit, sender) == Err(EpochMismatch)
       <==> commit.body.newEpoch != commit.body.epoch
  {
  }
}
