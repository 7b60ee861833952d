# Hermes collaboration mesh: verified model

This Dafny 4.11 project models the collaboration-mesh backend under `collab/` and the request
handlers of `server.py` that drive it, and proves what the backend promises over whole runs,
restarts and crash points. `dafny verify dfyconfig.toml` checks everything.

The mesh keeps an append-only ledger with a parallel audit hash chain, a state file with the
message log, the task index and the nodes, and one file per task. Nodes enrol with single-use join
codes, authenticate with bearer tokens and certificates, and send signed envelopes. Accepted events
are appended, applied, and forwarded to partner servers. A limiter guards every route.

## How the model is built

Pure code is modelled as functions. Code that changes things step by step is modelled as classes
whose methods follow the code's branches and loops; each method's contract equates the new state
with a specification function of the old one, and the theorems are about runs of those functions.

| file | what it holds |
|---|---|
| `Text.dfy`, `Json.dfy`, `Canon.dfy`, `Lines.dfy` | Python strings; JSON values and the canonical text; what that text looks like; how a text falls into lines |
| `Signing.dfy`, `Trust.dfy`, `TrustRuns.dfy` | envelopes, the nonce store, replay protection over runs |
| `Chain.dfy` | the audit hash chain, what it binds, appending to it |
| `Tasks.dfy`, `Paths.dfy`, `Vault.dfy` | task index, file names, state, files and durable writes |
| `Ledger.dfy`, `Handlers.dfy`, `VaultRuns.dfy`, `VaultSafety.dfy` | the ledger's view, the order of steps in the handlers, runs, failing closed, crashes |
| `Auth.dfy`, `AuthRuns.dfy`, `AuthSoundness.dfy`, `Challenges.dfy` | enrolment, revocation, soundness of authentication, revocation challenges |
| `Relay.dfy`, `Breaker.dfy` | retry queue and breaker |
| `RelayRuns.dfy`, `RelayTurns.dfy`, `RelayFailures.dfy`, `RelayChecks.dfy` | every interleaving at the awaits: where copies are, what each post belongs to, what the counts are, what the breaker lets through |
| `RateLimit.dfy` | the sliding-window limiter |
| `Decoding.dfy` | what the handlers make of the fields of a payload |
| `CollabVault.dfy`, `MeshAuth.dfy`, `Requests.dfy`, `Server.dfy` | the objects, and what each request does to the whole server |
| `ServerRuns.dfy`, `ServerSafety.dfy`, `ServerTrust.dfy`, `ServerRevocation.dfy`, `ServerVault.dfy` | runs of the server: where ledger rows come from, which node wrote them, what the vault then says |

A signed request with a body is two steps of a server run: its headers, when the token is checked,
and its body, when the envelope is verified for the node of that token. Anything can happen between
the two, as the handlers wait for the body there (server.py:715-721).

A vault operation is an `Effect`: the new state in memory and its durable writes in order. A crash
keeps a prefix of those writes and loses the state in memory.

The hash is a parameter, known only to be injective and never empty; the keyed hash, the
recognisers of e-mail addresses, paths and IP addresses, and the reading of times are parameters
too. Clock readings, fresh ids and the outcomes of posts are arguments; runs say where clocks must
be monotone and ids fresh.

A ledger row is held as the lines it is read back as: `append_event` writes one text, and
`verify_audit_chain` cuts the file at every character at which `str.splitlines` does.

## What the code does not do

Nine promises fail; the model keeps the code as it is and says exactly when they hold:

- A ledger row whose text holds U+0085, U+2028 or U+2029 is read back as several lines, which breaks
  the chain for good, because JSON escapes none of them and `str.splitlines` cuts there
  (collab/vault.py:157, collab/vault.py:206). A row reads back exactly when it holds none
  (`Chain.WrittenRow`), and a run from an empty vault ends with a verifying chain exactly when no row
  it appends holds one (`VaultSafety.ChainVerifiesIff`, `VaultSafety.LineSeparatorBreaksVault`).
- An empty ledger beside an unreadable audit file passes verification, and so does an audit file whose
  last row lost its line break; in both cases the next append breaks the chain.
  `Chain.AppendVerifiesIff`: an append keeps a verifying pair verifying exactly when the audit file has
  no unreadable line and its last row its line break, and the ledger row has no line break in it.
- Exporting a task that holds NaN or an infinity stores it without appending its event, and exporting
  one whose status is a list or an object raises and does neither (server.py:884).
  `VaultRuns.ExportRecordedIff`: an export is recorded exactly when the status is neither and the
  stored task is printable.
- The signed text does not determine its parts when a node id goes on, after a node id, with `|`, an
  operation, `|` and the start of an object text. `Signing.SameTextIff` says exactly which envelopes
  share a text; node ids that do not continue one another in this way never do
  (`Signing.ContinuationIsObjectText`). `Signing.LongerTwinIff`: some longer node id signs the text of
  an envelope exactly when its payload or nonce holds the text of another one.
- With one message more than `nonce_limit` in the window, the oldest is accepted twice, whatever the
  limit (`TrustRuns.ReplayAcceptedAboveCap`). Over any run an accepted envelope that is presented again
  while fresh, and shares its time with no other, is accepted exactly when at least `nonce_limit`
  accepted envelopes have a newer time (`TrustRuns.ReplayAcceptedIff`).
- A revocation cut before its third write does not survive a restart that falls back to the default
  state (`AuthRuns.CutAfterFirstWriteRevives`, `AuthRuns.CutAfterSecondWriteRejoins`); from the third
  write on it does.
- A join cut after its first write leaves a certificate that shuts its node id out. It can join again
  exactly when that certificate is revoked while neither the revoked store nor the vault knows the node
  (`AuthSoundness.CutJoinEnrolsIff`), which takes a revocation cut after exactly two writes and a
  restart on the default state; without one, never. A node is issued at most one certificate more than
  it had revocations cut in that way (`AuthSoundness.NodeJoinsOncePerCut`).
- Revocation ends neither a WebSocket relay link nor a request whose headers came before it: the token
  is checked once, and the node is kept. `ServerRevocation.WritesIff`: a node writes exactly through an
  open link or a waiting request that is pinned to it, by an envelope that verifies and fits its
  handler, while the chain verifies, revoked or not (`ServerRevocation.WaitingRequestOutlivesRevocation`).
  After its revocation it writes only through those it had before
  (`ServerRevocation.RevokedRowsPinnedBefore`), and without one never
  (`ServerRevocation.RevokedWritesNothing`).
- From 1024 failures in a row beyond the limit of the breaker on, `2 ** n` is too large for a float
  and `_mark_fail` raises `OverflowError` (collab/relay.py:220). In a handler of a failed post nothing
  catches it. A dispatch fails some partner, with neither an acceptance nor a copy queued, exactly when
  one of its handlers marks a failure of a partner whose failures in a row have reached that count
  (`RelayFailures.DispatchDiesIff`; `RelayFailures.DispatchDies` gives such a run), and copies are lost
  exactly when a handler of the drain loop does, which ends the loop (`RelayFailures.CopiesLostIff`). (An
  answer with another status is marked before that; if its mark raises, the handler marks once more.)
  While every count can be stored nothing is lost (`RelayFailures.NothingLostWithinCount`); the bound on
  the breaker's waits holds for `m` periods exactly while `m` is at most 1024 (`Breakers.BreakerBoundIff`).

Where code and documentation disagree the code is followed: the repository's own README.md says the
breaker isolates a partner for 60 s, the code opens it for 15 s doubling up to 16 times that
(collab/relay.py:41, collab/relay.py:213-223); the design document under `docs/` chains each audit row to the
hash of the previous line, the code to a hash over three fields (collab/vault.py:170); the limiter calls itself a
fixed-window counter (collab/ratelimit.py:22) and slides.

## Model

| member | source | states |
|---|---|---|
| Json.WriteDecodes | collab/trust.py:25-26 | a canonical text read off the front of any text determines the value and what follows it |
| Json.CanonicalInjective | collab/vault.py:137-138 | equal canonical texts come from equal values |
| Json.ObjectTextsPrefixFree | collab/trust.py:25-26 | no canonical object text is a proper prefix of another |
| Canon.ObjectWritten | collab/trust.py:25-26 | the canonical text of an object is its members between braces, in the order of the code points of their keys, with commas and no spaces |
| Canon.ListWritten | collab/trust.py:25-26 | that of a list is its items between brackets, with commas |
| Canon.StringWritten | collab/trust.py:25-26 | that of a string is its characters between quotes, each escaped as JSON asks and nothing else escaped |
| Signing.PayloadRefusedIff | collab/trust.py:100-123 | the recursive payload check refuses a tree exactly when some key or string at some depth is refused |
| Signing.SensitiveIffForbidden | collab/trust.py:100-112 | a key is refused exactly when, in lower case and with underscores, it is one of the forbidden words or holds one of four |
| Signing.SignIff | collab/trust.py:57-67 | sign answers exactly for an allowed operation and an object payload in which nothing is refused and everything can be printed, with the keyed hash of the text of those parts |
| Signing.FreshIff | collab/trust.py:72-97 | an envelope passes up to the nonce check exactly when it names the expected node and an allowed operation, has every field, a time within the window, a payload in which nothing is refused at any depth, and the signature of its own parts |
| Signing.RaisedIff | collab/trust.py:72-97 | verify raises exactly for an operation that is a list or an object, or a signature outside ASCII in an envelope that passes everything before it |
| Signing.SigningMaterialInjective | collab/trust.py:69-70 | the signed text determines node id, operation, payload, nonce and time, even if payload strings and the nonce hold the separator |
| Signing.SameTextIff | collab/trust.py:69-70 | two envelopes sign the same text exactly when they agree, or one node id continues the other with the operation and text it then stands for |
| Signing.ContinuationIsObjectText | collab/trust.py:69-70 | such a continuation is the operation followed by the start of an object text |
| Signing.CutPayloadCollides | collab/trust.py:69-70 | a payload string with the separator in it gives such continuations too: the object text may be cut there |
| Signing.LongerTwinIff | collab/trust.py:69-70 | some longer node id signs the text of an envelope exactly when after some text in its body come an allowed operation, an object text and a nonce |
| Signing.ForeignSignatureFails | collab/trust.py:72-98 | an envelope that passes with a signature made for some parts names exactly those parts |
| Trust.KeptFacts | collab/trust.py:132-137 | a save keeps only live entries, at most the limit, and the newest of them |
| Trust.EvictsExactlyWhenOverfull | collab/trust.py:134-137 | a save drops a live entry exactly when more than the limit are live |
| Trust.KeptIsPrefix | collab/trust.py:132-137 | a save keeps the first entries, newest to oldest, of those at most four windows old, and entries of one time stay in their order |
| Trust.ReloadedOrder | collab/trust.py:125-130 | what is read back is the same nonces in the order of their texts |
| Trust.AcceptedIff | collab/trust.py:72-98 | a message is accepted exactly when it is genuine, its payload clean at every depth, and its nonce not retained; only then is its nonce remembered |
| Trust.TrustManager.constructor | collab/trust.py:46-55 | starting up reads back the stored dictionary |
| Trust.TrustManager.SaveNonces | collab/trust.py:132-150 | memory and file hold the same pruned and capped dictionary |
| Trust.TrustManager.RememberNonce | collab/trust.py:152-157 | a retained nonce is refused and changes nothing, any other is stored and saved |
| Trust.TrustManager.VerifyMessage | collab/trust.py:72-98 | verdict, nonces and file are those of the specification of verify, which `Trust.AcceptedIff` states on the fields of the message |
| Trust.SignedIsAccepted | collab/trust.py:57-98 | what sign emits is accepted exactly when its time is within the window and its nonce is not retained |
| TrustRuns.RunRetains | collab/trust.py:72-157 | over any run with restarts and any age up to four windows: under the matching cap everything accepted and that young is retained |
| TrustRuns.NoEnvelopeAcceptedTwice | collab/trust.py:72-98 | with at most the limit accepted in any two windows, no nonce and time pair is accepted twice |
| TrustRuns.NonceReuseThreeWindowsApart | collab/trust.py:125-157 | with the cap on five windows, accepted messages sharing a nonce are more than three windows apart |
| TrustRuns.NothingEvictedByCount | collab/trust.py:132-137 | with the cap on five windows, every nonce a save drops is more than four windows old |
| TrustRuns.ReplayAcceptedAboveCap | collab/trust.py:132-157 | whatever the limit, of limit + 1 fresh messages with nonces of their own all are accepted and the oldest is accepted again |
| TrustRuns.ReplayAcceptedIff | collab/trust.py:125-157 | over any run with restarts, a fresh second presentation is accepted when at least nonce limit accepted envelopes have a newer time, refused when fewer others have a time at least as new, and so exactly then when no other has its time |
| Lines.CanonicalPieces | collab/vault.py:157 | a canonical text is one line exactly when no key or string holds a line separator; otherwise its first line ends inside a string, which no canonical text does |
| Chain.WrittenRow | collab/vault.py:206-211 | a row reads back as its one line exactly when it has no line break; otherwise its first line does not parse |
| Chain.VerifiesIff | collab/vault.py:155-176 | the chain verifies exactly when every ledger line parses, there are as many audit rows, and each names the id of its row, the hash before it, the hash of its canonical text and the hash of the text of those three; an audit file with a line that is no object counts as empty |
| Chain.AuditEntryLinks | collab/vault.py:212-217 | the audit row of an append has exactly the five fields, links the new row to the last one and repeats its time |
| Chain.LinkWritten | collab/vault.py:137-138 | the text a link hashes, character by character |
| Chain.HashOfInjective | collab/vault.py:161-173 | equal final hashes come from equal ledgers |
| Chain.ChainBinds | collab/vault.py:155-176 | two verifying pairs with the same last hash have equal ledgers, lengths and checked audit fields |
| Chain.TamperingRejected | collab/vault.py:155-176 | with one file fixed, any change to the checked contents of the other is rejected |
| Chain.AppendVerifiesIff | collab/vault.py:195-217 | appending both rows keeps the pair verifying exactly when the audit file is readable and its last row has its line break, and the new row has no line break in it, and then adds one row |
| Chain.TwoTextsAreNoObject | collab/vault.py:215-217 | no object has the texts of two objects in a row as its text, so two audit rows on one line are unreadable |
| Chain.TornBreakBlocksNext | collab/vault.py:195-217 | an audit row torn off just before its line break verifies, and the append after it breaks the chain |
| Chain.UnreadableAuditVerifiesWhenEmpty | collab/vault.py:140-160 | an empty ledger verifies beside an unreadable audit file, and the next append does not |
| Chain.SeparatorBreaksRow | collab/vault.py:157 | one U+0085, U+2028 or U+2029 in a string makes the row unreadable |
| Chain.PartialAppendFails | collab/vault.py:210-217 | a torn row, or a ledger row without its audit row, does not verify |
| Tasks.UpsertKeepsMirror | collab/vault.py:315-339 | storing a task keeps the index invariant and its mirror on disk |
| Tasks.UpsertIdempotent | collab/vault.py:326-337 | storing a record again changes neither the index nor the files |
| Tasks.NormalizedAgain | collab/vault.py:316-325 | a stored record normalises to itself, whatever the clock |
| Tasks.UpsertUnstamped | collab/vault.py:325-329 | storing a task does not depend on the times stored |
| Tasks.UpsertPlaces | collab/vault.py:326-329 | one upsert puts the task last in the bucket of its status and takes its id out of the others; every other task stays, in its order, but the oldest of a bucket that holds 200 others |
| Tasks.StatusIff | collab/vault.py:319-323 | which texts give which status, and that no other does; a falsy status is pending |
| Tasks.StoredFields | collab/vault.py:315-325 | the id, the status and the time of the stored record, and that all other fields are those of the request |
| Paths.AcceptedIsPlain | collab/vault.py:256-274 | an accepted name leads strictly below the root through at least two plain components, never to the ledger, the state file or .auth |
| Paths.ReturnedNameResolves | collab/vault.py:284-290 | the returned name leads back to the same file exactly when its first component is not collab |
| Paths.SlashStylesAgree | collab/vault.py:257-259 | both slash styles name the same file or are both refused |
| Paths.PathIff | collab/vault.py:256-274 | a name is accepted exactly when, split at either slash and without a leading collab, it is at least two plain parts, and then leads to those parts below the root |
| Vault.UpsertFiles | collab/vault.py:330-338 | the writes of an upsert leave the record in one directory and out of the others |
| Vault.RegisteredNode | collab/vault.py:101-113 | a node that is not revoked becomes active with the given role and lifetime and keeps its first joining time; a revoked one is refused; no other node changes |
| Vault.ChangedNode | collab/vault.py:115-134 | what touching and revoking leave of a node, and that no other node changes |
| Vault.WriteTextKeepsChain | collab/vault.py:284-290 | a file write changes neither the chain files nor the state file nor the verdict |
| Ledger.MessagesAreLast200 | collab/vault.py:227-230 | the message log read from the ledger is exactly its last 200 messages |
| Ledger.TasksAreLatest | collab/vault.py:231-234 | each bucket holds exactly the tasks that are the latest valid task row of their id, have its status, and have fewer than 200 newer ones of that status, in ledger order |
| Ledger.RecentTaskIsIndexed | collab/vault.py:231-234 | a latest valid task row with fewer than 200 later task rows of its status is in the bucket of that status |
| VaultRuns.AppendOutcome | collab/vault.py:195-222 | the files, with the row as the lines it reads back as, and the state after an append, also when applying the event fails |
| VaultRuns.ApplyView | collab/vault.py:224-238 | applying an event changes messages and tasks as the ledger view says |
| VaultRuns.StoreAndAppendIsOneApplication | server.py:814-820 | storing a task, appending it and storing it again nets to one application of its event, when its row is printable and has no line break |
| VaultRuns.NextKeepsFaithful | server.py:714-737 | every relay, task, export, file, node and restart step whose row has no line break keeps messages and tasks equal to the fold of the ledger |
| VaultRuns.NextBreaksChain | collab/vault.py:157 | a request whose row has a line break leaves a broken chain |
| VaultRuns.RowUnbrokenIff | collab/vault.py:197-206 | the row of an event has no line break exactly when its payload and its strings have none |
| VaultRuns.NextLedger | server.py:714-896 | every request adds to the ledger file exactly the lines of its row, and nothing while the chain is broken |
| VaultRuns.VaultSaysWhatLedgerSays | collab/vault.py:195-238 | in every crash-free run from an empty vault whose rows have no line break the chain verifies, the messages are the last 200 of the ledger, and each bucket holds exactly the latest tasks of its status in the ledger, up to the newest 200, in order |
| VaultRuns.TaskIndexInvariant | collab/vault.py:315-339 | the index and mirror invariant over all runs, with refused events and broken chains |
| VaultRuns.ExportRecordedIff | server.py:884-896 | an export is recorded exactly when the status is neither a list nor an object and the stored task is printable, and then leaves the vault faithful exactly when its row has no line break; with another status nothing changes, and an unprintable task leaves the index ahead of the ledger |
| VaultSafety.AppendExtendsChain | collab/vault.py:195-222 | a successful append starts from a verifying chain and leaves one, longer by one row, exactly when the audit file is readable and the row has no line break |
| VaultSafety.BrokenChainFailsClosed | collab/vault.py:178-182 | while the chain is broken no run changes ledger, audit rows, tasks, messages or files, and it stays broken |
| VaultSafety.ChainVerifiesIff | collab/vault.py:155-222 | a run from an empty vault ends with a verifying chain exactly when no row it appends has a line break |
| VaultSafety.LineSeparatorBreaksVault | collab/vault.py:157 | one relayed message with one of the three characters in a string breaks the chain for good |
| VaultSafety.CutAppend | collab/vault.py:210-221 | cut after any prefix of its writes, an append leaves the old ledger verifying, the new one verifying when its row has no line break, or a chain that fails |
| VaultSafety.CutBetweenRows | collab/vault.py:210-217 | stopping between the rows is what a cut after the first write leaves |
| VaultSafety.TornAppend | collab/vault.py:210-217 | a row torn in either file, or a ledger row without its audit row, leaves a chain that fails |
| VaultSafety.CutAppendBlocksLater | collab/vault.py:178-222 | after an append that stopped in or between its two rows and a restart, no run appends or changes anything |
| CollabVaults.CollabVault.RegisterNode | collab/vault.py:101-113 | refuses a revoked node, otherwise activates it and saves |
| CollabVaults.CollabVault.TouchNode | collab/vault.py:115-119 | a known node's last time is set and saved |
| CollabVaults.CollabVault.MarkNodeRevoked | collab/vault.py:121-125 | the node is revoked, made if missing, and saved |
| CollabVaults.CollabVault.RevokeNode | collab/vault.py:127-134 | a known node is revoked and saved, an unknown one is reported |
| CollabVaults.CollabVault.AuditLines | collab/vault.py:140-153 | the rows of the audit file, none when a line is unreadable |
| CollabVaults.CollabVault.VerifyAuditChain | collab/vault.py:155-176 | true exactly when every row is linked to the ledger and to the row before |
| CollabVaults.CollabVault.CheckLinks | collab/vault.py:161-174 | the loop accepts exactly linked rows |
| CollabVaults.CollabVault.CheckRow | collab/vault.py:163-173 | one round of the loop accepts exactly a matching row and gives the next hash |
| CollabVaults.CollabVault.EnsureAuditClean | collab/vault.py:178-182 | a broken chain is noted, saved and refused |
| CollabVaults.CollabVault.NoteAudit | collab/vault.py:184-192 | the verdict is noted in memory |
| CollabVaults.CollabVault.UpsertTask | collab/vault.py:315-339 | index, files and saved state after an upsert, nothing for an invalid status |
| CollabVaults.CollabVault.FileTask | collab/vault.py:330-337 | the record is in its own directory and in no other |
| CollabVaults.CollabVault.ApplyEvent | collab/vault.py:224-238 | messages, tasks and nodes after an event, with its error |
| CollabVaults.CollabVault.RecordEvent | collab/vault.py:205-217 | the ledger row first, as the lines it reads back as, then the audit row linked to the last hash |
| CollabVaults.CollabVault.AppendEvent | collab/vault.py:195-222 | refused on a broken chain, otherwise recorded, applied and saved |
| CollabVaults.CollabVault.WriteFile | collab/vault.py:284-290 | writes an accepted name of allowed size and returns it, otherwise changes nothing |
| MeshAuths.NodeIdentityManager.Issue | collab/identity.py:103-122 | issues exactly when there is no unrevoked certificate |
| MeshAuths.MeshAuth.constructor | collab/auth.py:44-62 | starting up marks every node of the revoked store |
| MeshAuths.MeshAuth.CreateInvite | collab/auth.py:145-165 | purges used and expired codes and adds the new one, or the error |
| MeshAuths.MeshAuth.MatchCode | collab/auth.py:174-190 | the first unused, unexpired code with this hash, binding and expiry |
| MeshAuths.MeshAuth.Join | collab/auth.py:167-220 | certificate, used code, token and vault node after an accepted join, nothing after a refused one |
| MeshAuths.MeshAuth.CheckToken | collab/auth.py:228-248 | the node of the first record that authenticates, which is touched |
| MeshAuths.MeshAuth.RevokeNode | collab/auth.py:256-273 | all four stores after a revocation, nothing for an unknown node |
| MeshAuths.MeshAuth.RevokeTokens | collab/auth.py:265-271 | exactly the tokens of the node are revoked, as `Auth.RevocationStores` says record by record |
| Auth.RevocationStores | collab/auth.py:256-273 | after a revocation every token record and certificate of the node is revoked, the node is in the revoked store, and every other record is as it was |
| Auth.RevocationSparesOthers | collab/auth.py:256-273 | a token that authenticates as another node still does after a revocation |
| Auth.CheckSparesAll | collab/auth.py:228-248 | checking a token takes no token away |
| Auth.TokenIff | collab/auth.py:228-248 | a token authenticates exactly by the first record with its hash that is unexpired and unrevoked, of a node that is active in the vault, not in the revoked store, and has a live certificate |
| Auth.InviteStores | collab/auth.py:145-165 | an invite is refused exactly for a bad node id or a lifetime outside 1 to 86400, and otherwise leaves the usable codes and the new one with its binding and expiry |
| Auth.JoinIff | collab/auth.py:167-196 | a join is accepted exactly for a valid id with a code that is unused, unexpired, bound to it or to nobody, and of the requested expiry, a node the vault does not know, and no unrevoked certificate |
| Auth.JoinStores | collab/auth.py:197-220 | an accepted join uses up exactly the first such code, and adds one certificate, one token and one active node, each for a day |
| Auth.JoinSparesOthers | collab/auth.py:167-220 | a token of another node that authenticates when a join stores its own still does after it |
| Auth.JoinOrder | collab/auth.py:197-220 | the stores of a join are written in the order certificates, codes, tokens, vault |
| Auth.RevocationOrder | collab/auth.py:256-273 | those of a revocation in the order vault, certificates, revoked nodes, tokens |
| Auth.VerifyToken | collab/auth.py:228-248 | some record authenticates for the answer, and none does when there is no answer |
| Auth.FindCodeFirst | collab/auth.py:174-190 | a code is found exactly when one matches, and it is the first |
| Auth.CertificateLife | collab/identity.py:103-149 | an issued certificate verifies until it expires or is revoked, only then can another be issued, and other nodes are untouched |
| AuthRuns.RevokedNeverAuthenticates | collab/auth.py:256-273 | after a revocation returned True no later run, whatever its restarts, makes a token authenticate as the node |
| AuthRuns.CutRevocationIsEffective | collab/auth.py:256-273 | after any nonempty prefix of the four writes and a restart that reads the state file, the node never authenticates again |
| AuthRuns.CutAfterThirdWriteIsFinal | collab/auth.py:261-264 | from the third write on this holds for restarts on the default state too |
| AuthRuns.CutAfterSecondWriteRejoins | collab/vault.py:64-75 | cut after two writes and restarted on the default state, the node enrols again |
| AuthRuns.CutAfterFirstWriteRevives | collab/vault.py:235-238 | cut after one write and restarted on the default state, a join event brings its old token back |
| AuthRuns.RequestKeepsNodes | collab/vault.py:101-113 | no request forgets a node or makes a revoked one active |
| AuthRuns.RestartSparesAll | collab/auth.py:44-62 | a restart that reads the state file leaves every token alone |
| AuthSoundness.NextKeepsSound | collab/auth.py:145-273 | every step, joins and revocations cut by a crash included, keeps the enrolment invariant over codes, tokens, certificates, joins and revocations |
| AuthSoundness.AuthenticationSound | collab/auth.py:228-248 | in every run with crashes in joins and revocations, a token that authenticates was issued to that node by exactly one join, which consumed an issued, unexpired, suitably bound code that no other join used; the token and the last certificate issued to the node have not expired, and no revocation of it has succeeded |
| AuthSoundness.CodesJoinOnce | collab/auth.py:159-203 | each code and each token belongs to at most one join, despite purging |
| AuthSoundness.NodeJoinsOncePerCut | collab/auth.py:192-273 | a node joins at most as often as it is issued a certificate, and that at most once more than revocations of it were cut after exactly two writes |
| AuthSoundness.EnrolsAgainIff | collab/auth.py:174-199 | a node that was issued a certificate joins again with a code that fits exactly when the certificate is revoked while neither the revoked store nor the vault knows the node, which takes as many revocations cut after two writes as it was issued certificates |
| AuthSoundness.CutJoinEnrolsIff | collab/auth.py:198-220 | after a join that a crash cut after its first write a later join of that node id succeeds exactly so, and never without a revocation of it cut after two writes |
| Challenges.RevocationsConsumeChallenges | server.py:936-956 | each revocation consumes exactly one challenge issued for that node at most 60 s earlier, and no two the same |
| Challenges.PrepareIff | server.py:925-940 | a challenge is issued exactly for a known node, for its phrase and 60 seconds, and no other challenge changes; the state notes whether the chain verifies |
| Challenges.ConfirmIff | server.py:942-960 | a node is revoked exactly by an unexpired challenge of it with both phrases, if the vault knows it; the challenge is gone in any case, and no other |
| Relay.RelayClient.MarkFailed | collab/relay.py:213-223 | a failure counts one more and opens the breaker from the limit on, for a period that doubles up to 16 times the base (`Breakers.PeriodFactor`), or raises and stores nothing when the power of two is too large |
| Relay.RelayClient.QueueSafe | collab/relay.py:225-228 | the message is last and the oldest is dropped at the cap |
| Relay.EnqueueOrder | collab/relay.py:225-228 | the queue keeps its order: the new message is last, and what no longer fits left at the front |
| Relay.RelayClient.Dispatch | collab/relay.py:173-187 | every partner's turn in order until a mark raises, and accepted exactly when one accepted |
| Relay.RelayClient.DispatchOne | collab/relay.py:175-186 | one partner accepts, gets one copy queued, or ends the dispatch with an error |
| Relay.RelayClient.OfferAll | collab/relay.py:154-162 | partners are tried in order until one accepts or a mark raises |
| Relay.RelayClient.DrainRound | collab/relay.py:149-164 | an undisturbed round leaves exactly the undelivered messages in order; when a mark raises, the message at hand and the rest are gone |
| Relay.RoundLeaves | collab/relay.py:149-164 | a round that no error ends leaves exactly the messages that no partner took when they were offered in turn, with the breakers the ones before left, in order |
| Relay.OfferIff | collab/relay.py:154-162 | with partners all different and counts below the largest storable one, a message is delivered exactly when some partner that is not skipped accepts |
| Relay.OfferBreakers | collab/relay.py:154-162 | the partners up to the first that takes the message are cleared or counted as their posts came out, skipped ones and all others stay as they are |
| Relay.DispatchIff | collab/relay.py:173-187 | so is a dispatch, which queues exactly one copy for each partner that is skipped or does not accept, at the end of the queue |
| Relay.DispatchBreakers | collab/relay.py:173-187 | a dispatch marks each partner as its turn came out, and no other |
| Breakers.OpenPeriodBounds | collab/relay.py:213-223 | an open period is 1, 2, 4, 8 or 16 times the base, from the fourth failure past the limit on always 16, and no failure is counted from the largest storable count on |
| Breakers.PeriodDoubles | collab/relay.py:218-220 | the first period is the base, and each next one twice the one before, up to 16 times the base |
| Breakers.TrialInvariant | collab/relay.py:203-223 | against a partner that always fails, the count is the posts made up to the largest storable count, and each later post waits out the breaker |
| Breakers.BreakerBound | collab/relay.py:173-223 | m posts beyond the failure limit take more than 0, 1, 3, 7, 15 times the base for m up to 4 and 16 more for each later one, for m up to 1024 |
| Breakers.BreakerBoundIff | collab/relay.py:203-223 | that bound holds in every sequential run exactly while m is at most 1024 |
| RelayRuns.CopiesConserved | collab/relay.py:143-201 | in every interleaving the queue stays within its cap, and copies ever queued are in the queue, held by a living drain, retired or evicted exactly while no error has ended the drain |
| RelayTurns.RetiredArePosts | collab/relay.py:154-164 | in every interleaving a copy is retired exactly by an accepted post of the drain |
| RelayTurns.DispatchGivesOnePerPartner | collab/relay.py:189-201 | in every interleaving each finished turn of a partner made exactly one accepted post to that partner or queued exactly one copy, as its outcome says, and later turns made nothing |
| RelayTurns.DrainLeavesUndelivered | collab/relay.py:149-164 | a drain with no dispatch beside it leaves exactly the undelivered messages in order and evicts nothing; an error loses the message at hand and those after it |
| RelayFailures.StoredCountIsFailuresInARow | collab/relay.py:210-223 | in every interleaving the stored count is the marked failures since the last marked success, up to the largest storable count |
| RelayFailures.PostsAreMarked | collab/relay.py:189-223 | in every interleaving each turn of a partner that ends marks what its post came to, and nothing else is marked |
| RelayFailures.SkippedIff | collab/relay.py:203-223 | in every interleaving a partner is skipped exactly while it has failed often enough in a row and 1, 2, 4, 8 or 16 times the base, as its failures say, have not passed since the last counted one |
| RelayChecks.DispatchDecides | collab/relay.py:189-201 | in every interleaving a dispatch passes over exactly the partners that are skipped, with one copy for each, and posts to all others |
| RelayChecks.DrainDecides | collab/relay.py:154-164 | the drain passes over exactly those too, and queues its message again exactly once it has been at every partner |
| RelayChecks.PostsPassBreaker | collab/relay.py:154-208 | in every interleaving each post was started by an earlier check of its own turn at which its partner was not skipped |
| RelayFailures.DiesIff | collab/relay.py:143-228 | in every interleaving an error has ended a dispatch or the drain loop exactly when a handler of it marked a failure of a partner whose failures in a row could be counted no more |
| RelayFailures.DispatchDiesIff | collab/relay.py:173-228 | in every interleaving exactly then a partner has a refused post and neither an acceptance nor a copy, and those after it nothing; otherwise each turn that is over gave one of the two and the dispatch can go on |
| RelayFailures.CopiesLostIff | collab/relay.py:143-171 | in every interleaving copies are lost exactly when a handler of the drain loop made such a mark, and what the loop held then stays undelivered |
| RelayFailures.NothingLostWithinCount | collab/relay.py:143-228 | in particular, while every count can be stored, no error ends a task or the drain and no copy is lost |
| RelayFailures.DispatchDies | collab/relay.py:213-223 | a run in which a dispatch ends so, for every configuration with a partner |
| RateLimit.RateLimiter.constructor | collab/ratelimit.py:24-29 | limit and window are at least 1 |
| RateLimit.RateLimiter.CheckHit | collab/ratelimit.py:52-69 | rows and decision of one check, an error for an empty bucket |
| RateLimit.CheckIff | collab/ratelimit.py:52-69 | a check admits exactly when fewer than limit rows of the bucket are in the window, counts them, keeps exactly the rows in the window in order, and a rejection waits for the oldest of them, in whole seconds and at least one |
| RateLimit.SlidingWindowBound | collab/ratelimit.py:52-69 | with a clock that falls back by at most d, any closed interval of window minus d holds at most limit admitted hits of a bucket |
| RateLimit.SkewBoundTight | collab/ratelimit.py:56-59 | for every limit, window and skew, intervals longer than window minus skew by as little as one likes can hold one hit more |
| RateLimit.PrunedRefinesHistory | collab/ratelimit.py:56-69 | with a monotone clock the pruned table decides as the full history does and holds exactly its last window |
| RateLimit.RetryAfterInRange | collab/ratelimit.py:62-66 | a rejection announces a wait from 1 to the window |
| RateLimit.RetryAdmittedIff | collab/ratelimit.py:62-69 | a retry is admitted exactly after the true wait; the announced wait plus 0.001 s suffices and is at most 0.999 s too long when above 1 |
| RateLimit.ReachableTableOk | collab/ratelimit.py:59-67 | every reachable table holds at most limit rows per bucket, none from the future |
| Server.MeshServer.Arrive | server.py:715-721 | the node of the token is kept for the request exactly when the token authenticates, and the node is touched |
| Server.MeshServer.Receive | server.py:721-727 | the body is verified for the node that was kept, and the request waits no more |
| Server.MeshServer.Admit | server.py:915-938 | a request without a body: token first, then the envelope for that node, for the whole server state |
| Server.MeshServer.ApiRelay | server.py:721-741 | the server and the reply after the body of a relay request |
| Server.MeshServer.StoreTask | server.py:814-820 | upsert, then append of the stored record |
| Server.MeshServer.ApplyTask | server.py:800-828 | vault and reply of an accepted task request, which `Decoding.TaskCallStores` states on the fields of its payload |
| Server.MeshServer.ApiTask | server.py:793-828 | the body: its gate, the operation check, then the task (`Requests.TaskSent`) |
| Server.MeshServer.ApiExport | server.py:884-896 | the server and the reply after an export |
| Server.MeshServer.ApplyWrite | server.py:763-777 | vault and reply of an accepted file write, with names and contents that are not strings |
| Server.MeshServer.ApiFile | server.py:750-784 | the body: its gate, the operation check, then the action (`Requests.FileSent`) |
| Server.MeshServer.ApiLedger | server.py:915-922 | reading the ledger uses up the nonce of its envelope and changes nothing else |
| Server.MeshServer.OpenLink | server.py:1024-1040 | a link is pinned to the node of its token exactly when the handshake passes |
| Server.MeshServer.ReceiveFrame | server.py:1044-1063 | a frame is an envelope for the pinned node, appended when it verifies |
| Server.MeshServer.ApiPrepareRevoke | server.py:925-940 | a challenge is issued exactly for a known node |
| Server.MeshServer.ApiRevoke | server.py:942-960 | the challenge is used up first, and the node is revoked exactly when everything matches |
| Decoding.EventEffect | collab/vault.py:224-238 | what an event does to the state, by operation: a message row without its signature is logged, a task with an id is stored, a join registers its node, anything else does nothing |
| Decoding.RelayReplies | server.py:728-741 | an event is appended exactly when the chain verifies and it can be printed, and the reply says so |
| Decoding.TaskCallStores | server.py:800-828 | a claim stores the task as processing and claimed by the node, a completion as done and completed by it, any other action with the status given; every other field is that of the request; one row holds the action and the stored task; without a valid status nothing changes |
| Decoding.TaskCallRefused | server.py:802-817 | on a broken chain, or with an action that is a list or an object, nothing is stored or appended |
| Decoding.ExportCallStores | server.py:884-896 | an export stores the task as processing, done or pending by its own status, with its origin and every other field, and appends one row with it |
| Decoding.FileCallWrites | server.py:762-777 | an accepted write leaves exactly the text at its path, every other file as it was, and one row with the name; any other leaves the vault as it was |
| Requests.ArrivedIff | server.py:715-721 | headers pin a request to a node exactly when their token authenticates as it |
| Requests.OpenedIff | server.py:1024-1040 | a link is opened exactly for a token that authenticates as a named node, the claimed one if any |
| Requests.BodyTaken | server.py:721-727 | a body takes its request off the list and otherwise changes nonces and vault only |
| Requests.BodyRefused | server.py:721-727 | a body that does not verify changes nothing else, with 400, 403 or 500 |
| Requests.RelaySent | server.py:728-741 | a verified body is relayed with the operation, payload and signature it states |
| Requests.FrameSent | server.py:1044-1063 | so is a verified frame; a refused one changes nothing, and an error ends the link |
| Requests.TaskSent | server.py:796-828 | a verified body is a task request of its payload exactly when its operation is task |
| Requests.FileSent | server.py:756-784 | only the action write changes a file or the ledger, and then, on a verifying chain with an accepted name and a text that is not too long, leaves exactly the given text at that path and one row; reading, or no action, leaves the vault as it is |
| Requests.LedgerIff | server.py:898-922 | reading the ledger is allowed exactly when the token authenticates and the envelope verifies for its node, and changes only nonces and the time of the node |
| Requests.RestartForgets | server.py:192 | a restart keeps the nonces and forgets challenges, waiting requests and links |
| ServerRuns.NextIsRequest | server.py:714-960 | every step of a server run, headers and bodies apart, changes the server as its handler does |
| ServerSafety.EveryRowIsAuthorised | server.py:714-737 | in every run the ledger file is exactly the logged rows, and each but those of exports came through a request or link whose token authenticated as its node when its headers or handshake came, with an envelope that verified, in whose payload nothing is refused; the row repeats its operation and signature, and its payload, or for a task its action and the task it asks for, or for a file, which must be a write, the path |
| ServerSafety.PinsHaveOrigin | server.py:715-721 | every waiting request and every open link goes back to the step that checked its token, which authenticated as the node it is pinned to |
| ServerTrust.OneRowPerEnvelope | server.py:722-727 | with at most the nonce limit accepted in any two windows, no two rows came with the same envelope |
| ServerTrust.OneRowPerRequest | server.py:714-737 | no two rows came through the same request |
| ServerRevocation.WritesIff | server.py:714-828 | a step appends a row of a node exactly when it comes through an open link or a waiting request pinned to the node, its envelope verifies and fits its handler, and the chain verifies |
| ServerRevocation.RevokedRowsPinnedBefore | collab/auth.py:256-273 | after a revocation every row of the node but those of exports comes through a request or link that was pinned to it when it was revoked |
| ServerRevocation.WaitingRequestOutlivesRevocation | server.py:714-727 | a relay request whose headers came before a confirmed revocation of its node still appends a row after it |
| ServerRevocation.RevocationShutsOut | server.py:942-960 | a confirmed revocation of a known node without waiting requests and open links shuts it out |
| ServerRevocation.RevokedWritesNothing | collab/auth.py:256-273 | a node that is shut out writes no further row in any run, but by exports in its name |
| ServerRevocation.RowNodeEnrolled | collab/auth.py:167-248 | the node of every row but those of exports was enrolled, by exactly one join, and not revoked when its token authenticated |
| ServerVault.VaultSaysWhatLogSays | server.py:714-960 | in every run of the server whose restarts read the state file the chain verifies exactly when no appended row has a line break, and then the ledger is the authorised rows, the messages the last 200 of them, and each bucket exactly their latest tasks of its status up to the newest 200, in order; index and task files mirror each other in any case |

## Left out

- SHA-256, HMAC, Fernet, Ed25519, `secrets` and `uuid`: abstract injective functions and fresh values.
- HTTP, WebSocket, SQLite and temporary-file mechanics: a post is an outcome, a `check` transaction one step, an atomic replace one write.
- File locks: `join`, `create_invite` and `revoke_node` are single steps of one server process; nothing is claimed about several processes.
- E-mail, path and IP recognisers of `validate_payload`: one predicate on strings.
- NaN message times, which pass the freshness check at collab/trust.py:88: times are finite.
- Surrogate code points: strings hold Unicode scalar values only.
- Numbers are held as the text Python prints, so Python's equality of 1, 1.0 and True is not modelled.
- `str()` of a list or an object used as a task id or a role: the canonical text stands in for it.
- Non-ASCII letters in node ids: `create_invite` allows them, but no certificate can be issued for them.
- A negative replay window or nonce limit, and a queue cap below 1, which makes the code pop from an empty list.
- Symbolic links below the vault root and creation of missing files and directories at start-up.
- A state file that parses but does not have the shape the vault writes.
- File-API writes under `tasks/`, which `safe_path` permits: they are kept apart from the task files. Task ids are safe as file names.
- What the read action of the file API and the reading of the ledger answer.
- An audit row torn off exactly before its line break, in runs of the vault: `Chain.AppendVerifiesIff` and `Chain.TornBreakBlocksNext` say what the next append makes of it.
- Forwarding to partners after an event is recorded, and the errors it raises in the file and export handlers (server.py:775-776, server.py:895-896), where the ledger row stays.
- Crashes in server runs: what a crash leaves is proved for the vault and for enrolment on their own.
- `ws_relay_conns`, `_relay_forward` over WebSocket links, and reconnect delays.
- CollabVaults.CollabVault.VerifyAuditChain: reads the ledger as lines, which are cut where a row is written (`Chain.WrittenLines`); lines that others put into the file are given as read. A later piece of a cut row counts as unreadable even if it happens to be a JSON text, which its first piece never is.
- `break_seconds` is a float, as it is declared; with an integer `_mark_fail` does not overflow.
- The step of the rate limiter in each handler; viewer access, dashboard, discussion log and health data; ledger paging, `adopt` and resetting the limiter.
