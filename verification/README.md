# Protocol and state models of the Sun messenger

This project models the stateful cores of the messenger and proves what they keep over whole runs. Each core has
its own modules; `dafny verify dfyconfig.toml` checks all of them.

| core | modules | what is modelled |
|---|---|---|
| Double Ratchet | `Crypto`, `DoubleRatchet`, `RatchetHistory`, `RatchetChannel`, `RatchetRun`, `RatchetTheorems`, `RatchetBuffer`, `RatchetReplay` | a session with its skipped-key buffer, two sessions over an unordered network |
| X3DH and base64url | `X3dh`, `Base64Url`, `Base64Laws` | the agreement that opens a ratchet, and the text encoding of its keys |
| Connection pool | `Pool`, `PoolRun`, `PoolTheorems`, `PoolProgress` | a monitor with sleepers, dead connections, time-outs and disposal, and the wrappers its callers hold, under any interleaving |
| SQL scanners | `SqlScanner`, `SqlLaws`, `SqlRewrite`, `DialectLaws` | placeholder rewriting, statement splitting, the dialect rewriter, and laws that leave no other function possible |
| Emoji codec | `EmojiCodec`, `EmojiLaws`, `EmojiExact` | the token printer and the regular-expression decoder |
| MLS-style groups | `Roster`, `Mls`, `MlsRun` | rosters, epochs, commits, welcomes and group messages |
| Recovery phrases | `Bits`, `Mnemonic`, `MnemonicLaws` | the BIP-39 bit packing in both directions, as bit strings and as numbers |
| Group ownership | `GroupMembership`, `GroupOwnership`, `GroupAnswers` | the rows of group chats, every handler that changes them, and whom each handler serves |
| Migrations | `Migrations`, `MigrationRestart`, `MigrationProgram`, `MigrationOrder`, `MigrationEffects`, `MigrationValues`, `MigrationNormalized`, `MigrationChoices`, `MigrationTables` | a connection with commits and rollbacks, the whole migration script, what it creates and the value each row ends with |
| Imported keys | `KeyCache`, `KeyCacheRuns` | expiring insertion-ordered maps and the import functions on them |

## How the models are built

Code that changes things in place is a class whose methods carry the original loops and branches. A function gives
the value the new state must have, each method is proved to reach exactly that value, and the theorems are about runs
of these functions. Pure code is functions. Every run is a list of steps taken in an arbitrary order, and what the
environment decides (clocks, random keys, failures, which message arrives) is a parameter of the step.

Cryptography is symbolic. A secret is a term that records how it was derived, so two secrets are equal exactly when
they were derived alike; the one equation is that Diffie-Hellman commutes. A ciphertext opens under the key and nonce
it was made with and no other, and a signature names its signer and what it covers. Fresh key pairs are numbers not
used before.

## What the proofs bring out

* Double Ratchet: `decrypt` never deletes a skipped key it has used, and it commits its state before the ciphertext is
  checked. The channel theorem therefore says exactly which deliveries succeed instead of promising all of them.
  The second of the two calls that skip the old chain never does anything (`DoubleRatchet.SkipTwice`).
  One skip never evicts a key it has just stored, but one call of `decrypt` skips on two chains: with two gaps of 60,
  both permitted, 20 of the keys stored by that very call are gone when it returns
  (`RatchetBuffer.DecryptKeepsOwnExactly`).
* Double Ratchet, delivered twice: a message whose key is gone takes the key of the next one on its chain
  (`RatchetReplay.ReplaySpendsNext`); on an older chain it leads the session out of the conversation for good
  (`RatchetReplay.OldChainStrays`, `RatchetReplay.NeverComesBack`).
* SQL: the look-ahead for a doubled quote makes no difference to either scanner. The specification has none, and the
  loops, which have it, are proved to agree with it.
* Emoji codec: `EmojiExact.RoundTripExactly` says which texts survive. Those are the undisturbed ones: reading from the
  left, every match that begins at an original character lies within original text and names no code point. The marker
  alone does no harm. Text that spells the token of a code point is lost (`EmojiCodec.SpelledTokenIsDecoded`), and so is
  `__sun_emoji_u00000041` before an emoji, because the match takes the underscores of the next token
  (`EmojiExact.CutTokenIsLost`).
* Key cache: a plain PEM that begins with `pss:` shares its entry with a PSS import. Encryption, decryption and non-PSS
  calls with other PEMs are always answered rightly, and no other calls are (`KeyCacheRuns.SafeExactly`). An empty key would stop the trimming loop, because it
  is falsy; `KeyCacheRuns.SweepKeepsNewest` says exactly when that matters.
* MLS-style groups: a commit is never compared with the group it is applied to. A commit of another chat is accepted
  exactly when the epochs are equal, for instance when both chats are new (`Mls.CommitOfAnyGroup`,
  `Mls.CommitCrossesChats`).
* Groups: every handler keeps one owner for each group, but deleting an account removes its rows by the foreign key
  and names no successor (`GroupOwnership.DeleteAccountOrphans`, `GroupOwnership.OrphanedGroup`). Two refusals in the
  role handler can never be given (`GroupOwnership.SetRoleExact`).
* Migrations: every added column is committed at once, together with whatever was still uncommitted. Restarting is safe
  all the same, because each guarded step records its version only after everything it does, and the one
  unguarded data change is idempotent and not undone by later steps.

## Model

| member | source | states |
|---|---|---|
| DoubleRatchet.Session.Sender | static/double-ratchet.js:94-107 | a new initiator session holds the root and sending chain agreed with the prekey, no receiving chain and an empty buffer |
| DoubleRatchet.Session.Receiver | static/double-ratchet.js:109-118 | a new responder session holds the root seed and its prekey pair and can neither send nor receive yet |
| DoubleRatchet.Session.EncryptMessage | static/double-ratchet.js:122-143 | the message carries the number it had before the counter moved, and is sealed with the key of that place in the chain; without a sending chain nothing changes |
| DoubleRatchet.Session.SkipMessageKeys | static/double-ratchet.js:216-238 | the loop stores one key for each number up to the target and evicts the oldest beyond the limit; a gap over the limit is refused and changes nothing |
| DoubleRatchet.Session.DhRatchet | static/double-ratchet.js:169-187 | counters restart, and two root steps around a new key pair give the receiving and the sending chain |
| DoubleRatchet.Session.ReceiveMessage | static/double-ratchet.js:190-196 | the chain is moved up to and past the message whatever the ciphertext turns out to be |
| DoubleRatchet.Session.DecryptMessage | static/double-ratchet.js:147-197 | a buffered key is used first and changes nothing; a new header key skips the old chain, ratchets and receives; the imperative session does just what the specification used by the channel theorem does |
| DoubleRatchet.SkipTwice | static/double-ratchet.js:162-167 | skipping the old chain a second time is always permitted and never changes the session |
| RatchetChannel.LookupEntries | static/double-ratchet.js:211-214 | a lookup in the buffer finds the sender's key for a message exactly when that message is among those stored |
| RatchetChannel.SkipLoopStores | static/double-ratchet.js:224-230 | the loop appends, in order, the keys the sender used for the skipped messages and leaves the chain advanced by their number |
| RatchetChannel.SkipAligned | static/double-ratchet.js:216-238 | skipping keeps a session aligned with the ideal key schedule, eviction included |
| RatchetChannel.RatchetAligned | static/double-ratchet.js:169-187 | from the header key alone the receiver reproduces the sender's root key and chain start, and the history extended by its own new key stays valid |
| RatchetChannel.ReceiveAligned | static/double-ratchet.js:190-196 | a message not yet reached on the current chain opens to the sent text when its gap is within the limit, and is otherwise refused without any change |
| RatchetChannel.DeliverKeepsAligned | static/double-ratchet.js:147-197 | delivering any honest message whose key is buffered or still ahead keeps the session aligned, and gives the sent text exactly when the key is buffered or the gaps are within the limit |
| RatchetRun.SendKeepsInv | static/double-ratchet.js:122-143 | sending by either party keeps both ends aligned and every packet on the network the one its sender's schedule prescribes |
| RatchetRun.StepKeepsInv | static/double-ratchet.js:122-197 | every send and every delivery, in whatever order, keeps both ends aligned and every receipt correct |
| RatchetRun.RunKeepsInv | static/double-ratchet.js:94-238 | alignment and correctness of all receipts hold after every interleaving of sends and deliveries |
| RatchetTheorems.DeliveryExact | static/double-ratchet.js:147-238 | an honest message opens to its text if and only if its key is buffered, or the receiver has not passed it and no gap exceeds the limit; in all other cases it is unreadable or refused |
| RatchetTheorems.ReliableChannel | static/double-ratchet.js:94-238 | from one master secret, after any run, an undelivered message decrypts to what was given to `encrypt` if and only if its key was not evicted and no gap exceeds the limit; all earlier receipts were right |
| RatchetTheorems.StoredKeyFound | static/double-ratchet.js:211-237 | a lookup in the buffer of an aligned session finds the key stored as its i-th, and it is the sender's, if and only if fewer than `DR_MAX_SKIP` were stored after it |
| RatchetTheorems.EvictedExactly | static/double-ratchet.js:211-237 | the same for either party after every run: a stored key is found until `DR_MAX_SKIP` later ones were stored, and no longer |
| RatchetBuffer.SkipKeepsOwn | static/double-ratchet.js:216-238 | in any state, a skip that is permitted and meets only keys not in the buffer finds afterwards every key it stored |
| RatchetBuffer.DecryptKeepsLast | static/double-ratchet.js:160-197 | of the keys that a call stores on the old and the new chain, exactly the last `DR_MAX_SKIP` are found when it returns |
| RatchetBuffer.DecryptKeepsOwnExactly | static/double-ratchet.js:160-197 | the call keeps all of them if and only if the gaps on the two chains together are at most `DR_MAX_SKIP` |
| RatchetTheorems.OneStepApart | static/double-ratchet.js:160-188 | in every reachable state the two ends differ by exactly one DH step |
| RatchetTheorems.HeaderSynchronises | static/double-ratchet.js:175-179 | the end that is behind obtains, by one root step with the other's public key, the other's root key and the start of its sending chain |
| RatchetTheorems.BufferBounded | static/double-ratchet.js:216-238 | no sequence of calls, with any messages at all, grows the buffer beyond `DR_MAX_SKIP` |
| RatchetTheorems.PassedChainFails | static/double-ratchet.js:160-197 | a message of an older chain whose key is gone can never be read, because the ratchet it starts derives another chain |
| RatchetReplay.ReplaySpendsNext | static/double-ratchet.js:190-196 | a passed message of the current chain is unreadable and uses up the key of the next one; the session stays aligned if and only if that next message was already sent, which would have opened and now does not |
| RatchetReplay.OldChainStrays | static/double-ratchet.js:160-197 | a passed message of an older chain, if its gap on the current chain is permitted, leaves the session with a root key and a receiving chain that the conversation does not have; otherwise nothing changes |
| RatchetReplay.CallsAstray | static/double-ratchet.js:122-238 | no sequence of calls with any messages at all brings such a session back |
| RatchetReplay.NeverComesBack | static/double-ratchet.js:147-238 | after such a delivery and any further calls, a message of the conversation can be read only if its key was in the buffer at that moment |
| X3dh.Agreement | static/crypto-v2.js:158-215 | initiator and responder derive the same secret if and only if they agree on the one-time prekey, used or not |
| X3dh.SecretExact | static/crypto-v2.js:150-188 | two initiator secrets are equal if and only if each of the three or four products is |
| X3dh.SecretBinds | static/crypto-v2.js:150-188 | so the secret changes with each key of either side, the use of a one-time prekey included |
| X3dh.OpensConversation | static/crypto-v2.js:158-215 | the sessions opened from an agreed secret are the two ends of one conversation in the sense of the channel theorem |
| Base64Url.B64uEncode | static/crypto-v2.js:19-24 | the loop over the byte array produces the padded-and-replaced text that the round trip is proved about |
| Base64Url.B64uDecode | static/crypto-v2.js:26-33 | the padding loop and the copy loop fill an array with exactly the decoded bytes, and fail exactly when `atob` does |
| Base64Url.DecodeEncode | static/crypto-v2.js:19-33 | every byte string is recovered from its encoding |
| Base64Url.EncodeIsUrlSafe | static/crypto-v2.js:23 | an encoding consists of letters, digits, `-` and `_` only, and is empty only for no bytes |
| Base64Laws.EncodeNumber | static/crypto-v2.js:19-24 | read as digits to the base 64 of the URL-safe alphabet, the text is the number that the bytes are to the base 256, with two or four zero bits behind it where the bytes do not fill whole digits |
| Base64Laws.DecodeFails | static/crypto-v2.js:26-33 | text without white space and padding is refused if and only if its length leaves 1 when divided by 4 or it holds a character of neither alphabet |
| Base64Laws.DecodeNumber | static/crypto-v2.js:26-33 | any other text gives the bytes whose number is that of the text without its spare last bits, whatever these are |
| Pool.AdapterPool.Turn | app/db/connection.py:146-179 | one pass of the acquire loop drops dead connections, each with a wake-up, and then hands out, reserves, gives up or sleeps; `PoolTheorems.AcquireExact` says when it does which |
| Pool.AdapterPool.DecrementTotal | app/db/connection.py:193-195 | a freed slot wakes the thread that has waited longest |
| Pool.AdapterPool.ReturnRaw | app/db/connection.py:239-249 | the connection goes back with a wake-up, or its slot is freed with one |
| Pool.AdapterPool.DisposeAll | app/db/connection.py:271-279 | the idle connections are handed over for closing, their slots are given up and every sleeper is woken; a second call does nothing |
| Pool.AdapterPool.ReadMetrics | app/db/connection.py:216-224 | the snapshot that `PoolTheorems.MetricsExact` relates to the connections really in use |
| Pool.PooledConnection.Close | app/db/connection.py:102-113 | the first call gives the connection back and closes the wrapper, each later one changes nothing |
| Pool.PooledConnection.GetAttr | app/db/connection.py:115-118 | a closed wrapper reaches no connection |
| PoolRun.DropDeadEffect | app/db/connection.py:151-155 | dropping dead connections keeps the number of slots outside the idle list and wakes at least one sleeper, if there is one, for each slot freed |
| PoolRun.TurnEffect | app/db/connection.py:146-179 | a turn of the acquire loop keeps every wake-up invariant and changes the slots in use by exactly the slot it takes |
| PoolRun.StepKeepsInv | app/db/connection.py:144-285 | each critical section, failed connection, time-out, death, use and close of any wrapper, open or not, keeps conservation, ownership, rollback and wake-up invariants |
| PoolRun.RunKeepsInv | app/db/connection.py:144-285 | these invariants hold after every interleaving |
| PoolTheorems.Reachable | app/db/connection.py:121-285 | they hold in every state reachable from a new pool of any size |
| PoolTheorems.GuardsNeverBite | app/db/connection.py:194-249 | the total is never decremented at zero, a returning connection always finds room, and a live one is always kept by a live pool |
| PoolTheorems.MetricsExact | app/db/connection.py:216-224 | `in_use` is the number of connections held, being returned, being given up or being opened, and never exceeds the size |
| PoolTheorems.AcquireExact | app/db/connection.py:146-179 | a disposed pool refuses; a live one hands out a connection if and only if an idle one is open, else reserves a slot if and only if fewer than `max_size` are out, else gives up if and only if the deadline has passed, and otherwise lets the caller sleep |
| PoolTheorems.AcquireLeaves | app/db/connection.py:146-179 | what is handed out is the last open connection of the idle list, those behind it are dropped; a sleeper goes last in the queue; giving up changes nothing but the counter |
| PoolTheorems.ReleaseExact | app/db/connection.py:226-249 | closing a wrapper puts its connection back, rolled back and on top, if and only if it is alive, the rollback worked and the pool is live; otherwise it gets closed, and in each case one slot becomes free and the longest sleeper is woken |
| PoolTheorems.BlockedMeansExhausted | app/db/connection.py:157-179 | a caller waits or times out only when every slot is in use and nothing is idle |
| PoolTheorems.SleepersAwaitRelease | app/db/connection.py:144-195 | when threads sleep and no wake-up is on its way, every slot is in use, so a release is still to come |
| PoolTheorems.ReleaseWakes | app/db/connection.py:193-249 | that release frees exactly one slot and wakes the longest sleeper for it |
| PoolTheorems.DisposeReleasesSleepers | app/db/connection.py:271-279 | disposal wakes every sleeper, nobody sleeps afterwards and every later caller is refused |
| PoolTheorems.DisposedDrains | app/db/connection.py:226-285 | once a disposed pool has no holder left, every connection ever opened is closed and the total is zero |
| PoolTheorems.ReuseIsClean | app/db/connection.py:151-155 | a caller is never handed a connection that is closed, in use elsewhere or carrying an unfinished transaction |
| PoolTheorems.WrapperOwns | app/db/connection.py:92-118 | in every run an open wrapper reaches a connection that is out of the pool and that no other open wrapper reaches, and a closed one reaches nothing |
| PoolTheorems.StaleWrapperHarmless | app/db/connection.py:102-118 | using or closing a closed wrapper changes nothing, whoever holds its old connection by then |
| PoolTheorems.HeldUntilClosed | app/db/connection.py:92-118 | until its wrapper is closed a connection stays out with that wrapper, and only a call through that wrapper makes it dirty |
| PoolTheorems.ReleasedOnce | app/db/connection.py:102-113 | over a whole run a wrapper gives its connection back once if it was open and ends up closed, and otherwise not at all |
| PoolProgress.SleeperIsWoken | app/db/connection.py:144-249 | in a live pool a thread with k sleepers before it is woken by the next k + 1 slots freed or connections put back, in every run in which it does not time out |
| PoolTheorems.ExhaustionsExact | app/db/connection.py:164-178 | after every run the exhaustion counter has grown by the number of callers that timed out |
| SqlScanner.ReplaceQmarkParams | app/db_backend.py:186-218 | the loop with its doubled-quote look-ahead computes what a three-mode scan without look-ahead computes |
| SqlScanner.SplitSqlStatements | app/db_backend.py:251-292 | the same for the splitting loop |
| SqlLaws.RewriteQuoted | app/db_backend.py:186-218 | a quoted stretch of either kind is copied whole, and the text behind it is rewritten as if it stood alone |
| SqlLaws.RewriteUnclosed | app/db_backend.py:186-218 | a quote that is never closed quotes the rest |
| SqlLaws.RewriteUnquoted | app/db_backend.py:213-216 | text without quotes has each `?` replaced by `%s`, whatever follows |
| SqlLaws.RewriteObeysLaws | app/db_backend.py:186-218 | these laws together, with the placeholder and the quotes spelled out |
| SqlLaws.OnlyRewriteObeys | app/db_backend.py:186-218 | any function that obeys them is the rewriting |
| SqlLaws.SplitQuoted | app/db_backend.py:262-276 | a quoted stretch goes whole into the current statement, semicolons included |
| SqlLaws.SplitUnclosed | app/db_backend.py:262-292 | a quote that is never closed takes the rest of the script into the last statement |
| SqlLaws.SplitUnquoted | app/db_backend.py:286-287 | text without quotes and semicolons goes into the current statement |
| SqlLaws.SplitObeysLaws | app/db_backend.py:251-292 | these laws together, with the one that an unquoted semicolon ends the statement |
| SqlLaws.OnlySplitObeys | app/db_backend.py:251-292 | any function that obeys them is the splitting |
| SqlLaws.StripExact | app/db_backend.py:279 | stripping takes white space off both ends, all of it and nothing else |
| SqlScanner.SplitRewriteCommute | app/db_backend.py:433-437 | splitting a rewritten script gives the same statements as rewriting each statement of the split one |
| SqlScanner.StripRewrite | app/db_backend.py:279 | rewriting placeholders commutes with stripping white space at either end |
| SqlScanner.SplitGivesStatements | app/db_backend.py:278-291 | every piece is non-empty, stripped and without an unquoted semicolon, and only the last can leave a quote open |
| SqlScanner.ResplitSame | app/db_backend.py:251-292 | joining the pieces with semicolons and splitting again gives the same pieces |
| SqlScanner.RewriteKeepsQuotes | app/db_backend.py:186-218 | quoted text is unchanged, unquoted text has each `?` replaced, and the length grows by one for each of those |
| SqlScanner.RewriteTwiceFrom | app/db_backend.py:186-218 | rewriting placeholders twice changes nothing more, from any scanner mode |
| SqlRewrite.CleanIffFixed | app/db_backend.py:186-218 | a text is left alone by the rewriting exactly when it has no unquoted placeholder |
| SqlRewrite.RewritePostgresTwice | app/db_backend.py:234-248 | the whole query rewriter is idempotent on every query |
| SqlRewrite.InsertOrIgnoreGetsClause | app/db_backend.py:221-248 | an `INSERT OR IGNORE` always comes out with a conflict clause that the detector itself recognises |
| SqlRewrite.InsertIntoUnmatched | app/db_backend.py:14-15 | what the rewriter produces from an insert matches none of its own patterns again |
| DialectLaws.BeginImmediateExact | app/db_backend.py:14 | the matcher accepts exactly what the pattern describes |
| DialectLaws.InsertOrIgnoreExact | app/db_backend.py:15 | the matcher accepts exactly what the pattern describes and leaves exactly what follows the match |
| DialectLaws.OnConflictExact | app/db_backend.py:16 | the search finds a clause exactly where the pattern describes one, word boundaries included |
| DialectLaws.AppendExact | app/db_backend.py:221-231 | a missing clause goes behind the statement and before its final semicolon |
| DialectLaws.RewriteExact | app/db_backend.py:234-248 | which of three things happens to a query, with the resulting text, by what the patterns match |
| EmojiCodec.EncodeUnrepresentable | app/db_backend.py:73-88 | the loop, its early exits included, encodes character by character |
| EmojiCodec.RussianKept | app/db_backend.py:73-88 | text of ASCII and Russian letters is stored unchanged |
| EmojiCodec.TokensLength | app/db_backend.py:73-88 | text of emoji is stored as one token of 23 characters for each |
| EmojiCodec.NoBorder | app/db_backend.py:18 | no proper prefix of the marker is also a suffix of it |
| EmojiCodec.NoMatchInText | app/db_backend.py:91-102 | in an encoded text no match begins at an original character, so none straddles a token |
| EmojiCodec.TokenMatches | app/db_backend.py:84-100 | a printed token is matched as a whole, whatever follows, and decodes to the character it was printed for |
| EmojiCodec.DecodeEncode | app/db_backend.py:73-102 | decoding recovers every text that does not contain the marker |
| EmojiCodec.EncodeTwice | app/db_backend.py:73-88 | encoding is idempotent and its result fits Windows-1251 |
| EmojiCodec.SpelledTokenIsDecoded | app/db_backend.py:91-102 | for every character, the text that spells its token comes back as that character instead |
| EmojiLaws.MatchExact | app/db_backend.py:18 | the matcher accepts exactly what the pattern describes, four to eight digits included |
| EmojiLaws.ReplacementExact | app/db_backend.py:96-100 | a match becomes the character that its digits number to the base 16, or stays when there is none |
| EmojiLaws.CopiedBefore | app/db_backend.py:102 | text in which no match begins is copied, whatever follows |
| EmojiLaws.MatchReplaced | app/db_backend.py:102 | a match is replaced and the text behind it is decoded on its own |
| EmojiLaws.DecodeIsSubstitution | app/db_backend.py:91-102 | looking for the marker first makes no difference |
| EmojiExact.RoundTripExactly | app/db_backend.py:73-102 | a text survives encoding and decoding if and only if it is undisturbed: every match that begins at an original character lies within original text and names no code point |
| EmojiExact.NoMatchSurvives | app/db_backend.py:73-102 | in particular a text survives in whose encoding no match begins at an original character |
| EmojiExact.CutTokenIsLost | app/db_backend.py:73-102 | a text is lost that spells a token without its underscores before a character that has a token itself |
| EmojiExact.NeverCatchesUp | app/db_backend.py:91-102 | once a match was decoded to a plain character the rest never makes up for it, even when what was decoded equals the text so far |
| Roster.SortCorrect | static/mls-client.js:100 | sorting gives an ordered permutation |
| Roster.Canonical | static/mls-client.js:99-104 | two lists of keys have the same canonical text if and only if one is a permutation of the other |
| Roster.RosterTextPair | static/mls-client.js:99-104 | the text of two members is both keys in order with a bar between them |
| Mls.FourPathsMeet | static/mls-client.js:130-312 | committer, follower, inviter and joiner arrive at one and the same state |
| Mls.SecretsAgree | static/mls-client.js:92-104 | two members share the epoch secret if and only if they agree on the epoch and, up to order, the roster |
| Mls.MessageReadable | static/mls-client.js:316-402 | one member reads another's message if and only if they agree on the epoch and, up to order, the roster |
| Mls.ReadExactly | static/mls-client.js:362-402 | for every state, payload and sender: the text is given if and only if the message is for this group and epoch, any signature is the named sender's (the claimed one's when none is named) over this body, and the epoch's key opens it; the signature is rejected if and only if only it fails |
| Mls.ReadUnderName | static/mls-client.js:316-402 | what a member encrypts is read by another if and only if epoch and roster agree and no sender, or the right one, is named |
| Mls.ChangedMessageRejected | static/mls-client.js:362-385 | a signed message whose body or sender was changed has its signature rejected, and only such a one has |
| Mls.KeyPackageExact | static/mls-client.js:35-84 | exactly the packages made by the owner of a non-empty identity key verify |
| Mls.WelcomeExactly | static/mls-client.js:204-233 | for every Welcome, key and sender: which state is accepted, and when the signature is rejected |
| Mls.WelcomeForOne | static/mls-client.js:130-233 | an invitation is made if and only if the package verifies, and opened if and only if the private key is the package's and no sender, or the inviter, is named |
| Mls.CommitAccepted | static/mls-client.js:280-312 | a commit is accepted exactly when its epoch fits, its sender signed it and its roster is the hashed one up to order |
| Mls.ReplayRefused | static/mls-client.js:283-285 | an accepted commit is refused the second time exactly when it moves to another epoch |
| Mls.CommitOfAnyGroup | static/mls-client.js:280-312 | a commit made in any chat is accepted if and only if the epochs are equal, and takes the member to that roster within its own chat |
| Mls.CommitOfAnyGroupCutsOff | static/mls-client.js:280-312 | after it the member reads another of its chat if and only if that one is at the same new epoch and roster |
| Mls.CommitCrossesChats | static/mls-client.js:107-312 | the first commit of one new chat is accepted in another new chat, whose messages are then unreadable |
| MlsRun.RunKeepsInv | static/mls-client.js:107-312 | after any run every member's state, and every Welcome under way, can be recomputed from chat, epoch and roster |
| MlsRun.GroupAgreement | static/mls-client.js:107-402 | after any run two members hold equal states exactly when epoch and roster list agree, and read each other exactly when the rosters agree up to order |
| MlsRun.CommitsApplyOnce | static/mls-client.js:280-312 | no commit made in a run can be applied twice by anybody |
| MlsRun.SameHistorySameState | static/mls-client.js:130-312 | members who went through the same rosters, each time by whichever packet, hold equal states |
| Bits.PadBinary | static/mnemonic.js:47 | `toString(2).padStart(n, '0')` is the fixed-width form of any number that fits |
| Bits.ChunksConcat | static/mnemonic.js:53 | cutting the concatenation of fixed-width numbers at that width gives the numbers back |
| Bits.ConcatChunks | static/mnemonic.js:87 | and cutting any bit string of fitting length and concatenating again gives the bit string back |
| Mnemonic.GenerateMnemonic | static/mnemonic.js:34-57 | the bit-string loops produce the phrase that belongs to the entropy and its checksum |
| Mnemonic.ValidateMnemonic | static/mnemonic.js:67-98 | the loops accept exactly the word sequences that `Mnemonic.ValidIffGenerated` characterises |
| Mnemonic.UnpackIndices | static/mnemonic.js:45-88 | unpacking the word indices made from an entropy recovers the entropy and its checksum |
| Mnemonic.IndicesUnpack | static/mnemonic.js:72-94 | indices whose checksum fits are the ones made from the entropy they hold |
| Mnemonic.ValidIffGenerated | static/mnemonic.js:34-98 | a word sequence validates if and only if some entropy generates it |
| Mnemonic.NormalizeJoined | static/mnemonic.js:59-65 | normalising a joined phrase gives back its words |
| Mnemonic.GeneratedPhraseValidates | static/mnemonic.js:34-98 | every generated phrase validates, and its entropy can be read back from it |
| Mnemonic.ValidatingPhraseIsGenerated | static/mnemonic.js:59-98 | every phrase that validates is, once normalised, the phrase generated from its own unpacked entropy |
| MnemonicLaws.PhraseNumber | static/mnemonic.js:34-57 | to the base 2048 the words are the number of the entropy to the base 256, followed by the upper half (12 words) or the whole (24 words) of the hash byte |
| MnemonicLaws.ValidNumber | static/mnemonic.js:67-98 | the same number belongs to every phrase that validates and to its unpacked entropy |
| MnemonicLaws.NormalizeTyped | static/mnemonic.js:59-65 | a typed text normalises to the words it spells in lower case, whatever white space is around and between them |
| MnemonicLaws.AlwaysSpelled | static/mnemonic.js:59-65 | and it normalises to nothing else |
| MnemonicLaws.TypedPhraseValidates | static/mnemonic.js:59-98 | a generated phrase validates, and gives its entropy back, in any case and spacing |
| GroupMembership.SelectSuccessor | app/routes/chat_group_membership_routes.py:213-228 | a pass over the other members finds the least by role rank, `joined_at` and `user_id`, and none only when there is no other member |
| GroupMembership.FirstUnique | app/routes/chat_group_membership_routes.py:218-226 | the order of the successor query leaves no ties |
| GroupMembership.Classify | app/routes/chat_group_management_routes.py:130-153 | the candidate loop stops at the first blocked person, else puts each candidate into exactly one list |
| GroupMembership.Database.EnsureChatMembers | app/services/chat_members.py:201-220 | existing rows keep role and date, missing ones are added |
| GroupMembership.Database.SetGroupMemberRole | app/routes/chat_group_membership_routes.py:59-122 | the branches and the two updates of a transfer have the effect `GroupOwnership.SetRoleExact` characterises |
| GroupMembership.Database.LeaveGroupChat | app/routes/chat_group_membership_routes.py:158-242 | the statements promote the successor, remove the row or dissolve the group as `GroupOwnership.LeaveEffect` describes |
| GroupMembership.Database.RemoveGroupMember | app/routes/chat_group_membership_routes.py:281-302 | the removal has the effect `GroupOwnership.ExpelExact` characterises |
| GroupMembership.Database.CreateGroupChat | app/routes/chat_group_management_routes.py:97-194 | each refusal leaves the rows alone; otherwise the group has the rows `GroupOwnership.FoundingEffect` describes |
| GroupMembership.Database.AddGroupMembers | app/routes/chat_group_management_routes.py:251-370 | the checks and the insert loop have the effect `GroupOwnership.AddingEffect` characterises |
| GroupOwnership.LeaveEffect | app/routes/chat_group_membership_routes.py:162-242 | with one owner, leaving removes a plain row, dissolves a group of one, or promotes the successor and removes the owner |
| GroupOwnership.FoundingEffect | app/routes/chat_group_management_routes.py:162-183 | a new group has its creator as only owner and everybody else as plain member |
| GroupOwnership.AddingEffect | app/routes/chat_group_management_routes.py:256-370 | exactly the people asked for who are known, not banned or blocked and accept become plain members, by somebody entitled to invite and within the size limit; any refusal changes nothing |
| GroupAnswers.AddedExactly | app/routes/chat_group_management_routes.py:256-333 | members are added if and only if the group exists, somebody else is asked for, the actor is moderator or above or a member where members may invite, everybody asked for is known and neither banned nor blocked, and the limit is kept |
| GroupAnswers.RefusedTruly | app/routes/chat_group_management_routes.py:256-333 | every refusal has the reason it names |
| GroupAnswers.CreatedExactly | app/routes/chat_group_management_routes.py:97-162 | a group is founded if and only if somebody else is asked for and accepts, everybody asked for is known and not blocked, and the limit is kept |
| GroupAnswers.FoundingRefusedTruly | app/routes/chat_group_management_routes.py:97-162 | every refusal has the reason it names |
| GroupAnswers.SuccessorExact | app/routes/chat_group_membership_routes.py:213-228 | the successor is of the highest role left, then the earliest, then the lowest number |
| GroupAnswers.NewRows | app/services/chat_members.py:201-220 | a new person gets a row if and only if joining or being added, and it is a plain member's |
| GroupAnswers.RowChanges | app/routes/chat_group_membership_routes.py:33-242 | a row that stays changes exactly by a role change the handler makes or by succession, and only in its role |
| GroupAnswers.GoneMeansOut | app/routes/chat_group_membership_routes.py:142-302 | who left or was expelled is no member by any table, and nobody else changes |
| GroupAnswers.DisbandedMeansGone | app/routes/chat_group_membership_routes.py:178-211 | with its last member the group goes and all contacts in it, and no other contact |
| GroupOwnership.StepKeepsInv | app/routes/chat_group_membership_routes.py:73-242 | every handler keeps exactly one owner in every group |
| GroupOwnership.RunKeepsInv | app/routes/chat_group_membership_routes.py:33-398 | after every sequence of handler calls each existing group has exactly one owner |
| GroupOwnership.OwnerChanges | app/routes/chat_group_membership_routes.py:77-239 | the owner changes if and only if the owner transfers the role or leaves; the new owner is the target or the first in succession, and nobody else's row changes on leaving |
| GroupOwnership.GroupVanishes | app/routes/chat_group_membership_routes.py:178-211 | a group disappears if and only if its last member leaves |
| GroupOwnership.OtherGroupsUntouched | app/routes/chat_group_membership_routes.py:33-302 | a call about one group leaves the rows of all others as they are |
| GroupOwnership.MemberGoes | app/routes/chat_group_membership_routes.py:142-302 | a member loses the row if and only if the member leaves or somebody of higher rank, at least moderator, expels the member |
| GroupOwnership.ExpelExact | app/services/group_authorization.py:103-171 | removing and banning succeed exactly from moderator up on strictly lower ranks, so never on the owner |
| GroupOwnership.SetRoleExact | app/routes/chat_group_membership_routes.py:59-122 | a role is set exactly under `MayAssign`; the refusals "already own" and "only owner can assign admin" are never reached |
| GroupOwnership.NoEscalation | app/services/group_authorization.py:74-100 | nobody rises to admin or owner but by the owner's own call, or as the first in succession when the owner leaves |
| GroupOwnership.DeleteAccountOrphans | app/routes/auth/routes_settings.py:505 | deleting an account keeps every group owned if and only if the account owns none |
| GroupOwnership.OrphanedGroup | app/db/schema.py:200-207 | a reachable group whose owner's account is deleted is left with members and no owner |
| Migrations.Connection.AddColumnIfMissing | app/db/migrations.py:76-81 | a missing column is added to every row and committed with all that was pending, in two states; a present one changes nothing |
| Migrations.Connection.DropNotNullIfSet | app/db/migrations.py:85-104 | the same for a constraint |
| Migrations.Connection.RunStep | app/db/migrations.py:318-357 | a guarded step checks its version once, then runs its statements with the commits they make, and passes through just the states of its trace |
| Migrations.Connection.RunMigrations | app/db/migrations.py:1163-1192 | the log of a run grows by exactly the states of `Trace`, those after which an attempt can be cut short and rolled back |
| Migrations.Connection.Close | app/db/connection.py:251-269 | what was not committed is gone when the connection is given back |
| MigrationRestart.PrivacyRow | app/db/migrations.py:611-666 | the privacy normalisation yields only known choices and leaves a row of known choices alone |
| MigrationRestart.PrefixSettled | app/db/migrations.py:1163-1192 | whatever has run has nothing to do again, and later statements do not change that |
| MigrationRestart.StepAgain | app/db/migrations.py:777-785 | a guarded step interrupted between its added columns gives, when repeated, what it would have given |
| MigrationRestart.AttemptsConverge | app/db/migrations.py:1156-1203 | for every restartable script, after any number of attempts failing at any statement a complete run reaches what a single run reaches |
| MigrationRestart.RunCommits | app/db/migrations.py:1192 | a complete run leaves nothing uncommitted |
| MigrationRestart.MigratedTwice | app/db/migrations.py:1156-1203 | a further run changes nothing |
| MigrationProgram.ProgramRestartable | app/db/migrations.py:318-1192 | the script of `run_migrations` is restartable, whatever base schema it starts with |
| MigrationProgram.RestartReachesSameDatabase | app/db/migrations.py:1156-1203 | however often and wherever it failed, the next complete run commits the same columns, versions and data, for every database and every choice of the backfills |
| MigrationProgram.RunFinishes | app/db/migrations.py:1156-1203 | after a complete run every statement is done and every privacy column holds a known choice |
| MigrationEffects.AddColumnExact | app/db/migrations.py:76-81 | a missing column is added with its nullability, each row of the table gets the default in it, and no other column, row or table changes |
| MigrationEffects.EnsureTableExact | app/db/migrations.py:425-451 | a missing table is created empty with its columns, an existing one is left alone |
| MigrationEffects.DropNotNullExact | app/db/migrations.py:85-104 | the column becomes nullable, no other constraint and no data change |
| MigrationEffects.AllowlistExact | app/db/migrations.py:991-1027 | a feature never set is switched to its allowlist, one that is set stays |
| MigrationEffects.RunLeaves | app/db/migrations.py:1156-1203 | a value that no data change of the script touches goes through a whole run unchanged, the default of a column added on the way included |
| MigrationValues.ColumnArrives | app/db/migrations.py:318-422 | each listed column of messages, users and chats is there after a complete run; where it was missing every row has its default, and where it was there and is not normalised every row has its old value |
| MigrationValues.OldMessagesUndelivered | app/db/migrations.py:328 | for instance, messages from before the column `is_delivered` hold 0 in it |
| MigrationValues.ColumnKept | app/db/migrations.py:1156-1203 | so has every other column of these tables |
| MigrationNormalized.LanguageSettles | app/db/migrations.py:453-473 | migration 16 leaves "en" where the language was English in any case, and "ru" everywhere else |
| MigrationNormalized.InvitePrivacySettles | app/db/migrations.py:476-490 | migration 17 leaves a known invitation choice in lower case, and "all" for anything else |
| MigrationNormalized.AutoLogoutSettles | app/db/migrations.py:703-726 | migration 27 keeps one of the four times and replaces any other by thirty days |
| MigrationNormalized.CreatedAtSettles | app/db/migrations.py:395-406 | migration 31 fills in a missing date and keeps any other |
| MigrationChoices.TotpSettles | app/db/migrations.py:453-463 | migration 16 dates two-factor login exactly where there is a secret and no date, also when both columns were added on the way |
| MigrationChoices.ChoiceSettles | app/db/migrations.py:535-669 | every privacy column ends with its old choice in lower case or with "all", a hidden status with "nobody", whether or not the column was there and however often the script ran |
| MigrationTables.AllRecorded | app/db/migrations.py:1156-1203 | a complete run leaves all versions from 6 to 38 recorded |
| MigrationTables.StepsCreate | app/db/migrations.py:671-1154 | whatever a step not recorded before is to create is there in the end |
| MigrationTables.TablesCreated | app/db/migrations.py:671-1154 | the same by the names of the tables |
| KeyCache.ExpiringMap.CacheSweep | static/crypto.js:41-53 | deleting while iterating and then trimming leaves what the two passes of the specification leave |
| KeyCache.ExpiringMap.Get | static/crypto.js:55-65 | an expired entry is removed and not returned; a live one is returned with a new expiry and keeps its place |
| KeyCache.ExpiringMap.Set | static/crypto.js:67-73 | the map is swept before the entry is stored |
| KeyCache.KeyStore.Import | static/crypto.js:120-223 | a hit is returned without importing, a failed import stores nothing, and only the map of that kind of key changes |
| KeyCacheRuns.SweepKeepsNewest | static/crypto.js:41-53 | a sweep keeps exactly the newest live entries, first in first out, if and only if it meets no empty key among those it drops |
| KeyCacheRuns.GetRefreshes | static/crypto.js:55-65 | a hit makes the entry live ten minutes from then, a miss leaves nothing behind, and other keys are found as before |
| KeyCacheRuns.SetThenGet | static/crypto.js:67-73 | a stored value is found for ten minutes and no longer |
| KeyCacheRuns.HitIsExplained | static/crypto.js:41-73 | in every run and under any clock, a hit was stored by an import under the same key and touched less than the TTL ago |
| KeyCacheRuns.SharedEntries | static/crypto.js:208-212 | two imports share an entry exactly when they are the same, or one is PSS and the other's PEM spells its key |
| KeyCacheRuns.SafeIsTransparent | static/crypto.js:120-342 | in every run, whatever else was imported, a hit of an encryption or decryption call, or of a non-PSS call with a PEM not beginning with `pss:`, is what the import itself would have given |
| KeyCacheRuns.SafeExactly | static/crypto.js:120-342 | these are exactly the calls for which that holds: for each other one some importer and run give a hit that differs |
| KeyCacheRuns.PlainIsTransparent | static/crypto.js:120-342 | it also holds for a PSS call when no PEM beginning with `pss:` was imported before |
| KeyCacheRuns.TransparentExactly | static/crypto.js:120-342 | one particular importer is served rightly over all runs if and only if it gives colliding imports the same results |
| KeyCacheRuns.SizeBounded | static/crypto.js:41-73 | when the empty PEM does not import, no map ever holds more than one entry over the limit |

## Left out

- Associated data: `encrypt` only carries it along and `decrypt` ignores it; packaging, Ed25519 signatures of ratchet payloads and the JSON form of a session are not modelled.
- Key material as bytes: WebCrypto, HKDF inputs and outputs, SHA-256 and RSA are symbolic or parameters. The text hashed into an epoch secret is treated as the triple it prints.
- RatchetRun.RunKeepsInv: messages are honest, and a message whose key is gone is not delivered again within a run, because that ends the alignment of the two sessions; `RatchetReplay` says when and how.
- RatchetRun.StepKeepsInv: the same for the single step.
- Awaits inside one ratchet call: two overlapping calls on one session object are not modelled.
- Pool: pressure warnings, environment parsing, the registry of pools and pool-less connections. Closing a raw connection is taken to succeed; the condition variable wakes the longest sleeper first, as CPython's does.
- PoolRun.RunKeepsInv: `close` of one wrapper is a single step, so two threads that close the same wrapper at the same moment are not modelled; the flag is read and set there without a lock.
- SQL: `_rewrite_reaction_payload`, row adapters and error translation. `\w` is a parameter of the rewriter.
- Emoji codec: the choice of the column that is decoded.
- MLS: version and cipher-suite constants, clocks of key packages and server queues. Private keys are named by their public keys.
- Mnemonic: the source of randomness is a parameter; the word list is any list of 2048 different lower-case words, and lower-casing any mapping that leaves those letters and the blank alone. Vault encryption is left out.
- GroupMembership.Database.AddGroupMembers: what the services for blocks, bans, privacy and invitations answer is a parameter; requests, messages, receipts and events are not rows of the model.
- Groups: each handler is one transaction and transactions are serial. Roles are the four known ones. Joining by link or request is one insert of a plain member.
- GroupOwnership.RunKeepsInv: account deletion is not among the steps, because it does break the property; see `GroupOwnership.DeleteAccountOrphans`.
- Migrations: readings of the clock are all the same value, so times of repeated attempts are not told apart. Statements that were not interrupted are taken to succeed. The saved-messages, membership and owner backfills are arbitrary functions of the data, and the base schema is any script that only creates what is missing. The cache of finished runs and its lock are left out.
- MigrationValues.ColumnArrives: the three backfills are arbitrary functions that leave the rows of users and messages alone and of an existing chat all but its kind and creator, as their statements do (app/db/migrations.py:150-304, app/services/favorites_chat.py:18-45); what they make of kind and creator is not modelled. The other theorems on final values say it the same way.
- MigrationEffects.AddColumnExact: altering a table that does not exist is an error of the database and is not modelled.
- Key cache: PEM parsing and the browser's import are one function of use and PEM; CryptoKey objects are values.
- Server, media rooms, user interface, configuration, rate limits, logging and tests are outside the project.
