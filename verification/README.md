# Verified model of the collaborative document backend

A Dafny model of the parts of the backend whose correctness depends on state kept over many
calls, on interleavings, or on byte-exact formats, with proofs about all of their runs.

* **The markdown collaboration room** (`Collab*.dfy`). `CollabMachine` is a state machine of one
  document's room, its update log and its snapshots. Its events are the stretches of code that run
  without a lock being released or a store being called: the two halves of the double-checked room
  lookup, the queries of a recovery, entering and leaving a room, taking a number under the room
  lock, the two inserts (which may fail, or take effect and be reported as failed), one offer of the
  broadcast loop, and a restart of the process. Any event may happen at any time; one that is not
  enabled changes nothing. `CollabInvariant` is the invariant, `CollabTheorems`, `CollabInitial`,
  `CollabDelivery` and `CollabBounded` the results, `CollabReplay` the replay algebra, and
  `CollabServer` the service itself as objects that change their fields step by step, each method
  proved to perform a run of the machine.
* **The version store** (`StorageKey.dfy`, `Version*.dfy`). Uploads, restores, both markdown savers
  and the office saver as writers that put an object, read the next number, commit and compensate,
  interleaved with each other and with soft deletes, stopping anywhere. `VersionServer` is the code
  of the writers over tables it updates in place.
* **Formats** (`Base64.dfy`, `Text.dfy`, `Pbkdf2.dfy`, `Password.dfy`, `Token.dfy`, `Stream.dfy`).
  Unpadded base64 (section 5 of RFC 4648 for the URL alphabet, section 4 for the standard one), the
  loops of PBKDF2 (section 5.2 of RFC 8018), the password record, the signed token (section 7.1 of
  RFC 7515), the size-limited reader and the sniffed upload stream.
* **Access and identity** (`Permission*.dfy`, `Identity*.dfy`, `EditorAccess.dfy`). Documents and
  permission rows with the role function and the accessible-documents query; users, sessions, OIDC
  bindings and administrators. Each request is one atomic step; the theorems are about all runs of requests, and
  the methods of `PermissionServer` and `IdentityServer` keep the invariants and state what the
  theorems promise about their answers. `EditorAccess` joins tokens, roles and sessions.

In each state machine a parameter stands for what the code draws or is told from outside: random
ids and tokens, the clock, the content, whether a write succeeds, which of several equal rows a
query returns, the order in which a map is walked. HMAC and SHA-256 are arbitrary functions (32-byte
results; the token hash injective where a theorem says so). The account service is built with its
two password functions, as in the source; where their meaning matters they are those of `Password`.
JSON encoding is an arbitrary pair of functions of which only the round trip is used.

## Where the code does less than one might expect

Each of these is proved, with the exact condition under which the code does meet the property.

* A room that still shows number 0 goes stale when the document is saved beside it
  (`CollabTheorems.SavedBesideRoom`, `CollabInitial.RoomIsCacheExactlyWhen`).
* A broadcast that still has to serve a session that has left sends on a closed queue and panics
  (`CollabTheorems.BroadcastCanSucceedExactlyWhen`, `CollabDelivery.LeaverPanicsBroadcast`).
* A message to a full queue is dropped, and the update still succeeds
  (`CollabDelivery.OfferedIsDeliveredExactlyWhen`, `CollabDelivery.FullQueueDropsUpdate`).
* The id that a grant returns can be revoked only if the subject had no row before
  (`PermissionTheorems.RevokeUndoesFirstGrantOnly`, `PermissionTheorems.RegrantCannotBeRevoked`).
* With merging by email on, a callback can take a user away from the OIDC subject bound to it
  (`IdentityTheorems.BindingIsLostExactlyWhen`, `IdentityTheorems.MergingUnbinds`).
* Two administrators who were both authenticated before either edit can demote each other
  (`IdentityTheorems.StaleActorsDemoteEachOther`, `IdentityTheorems.AdminsSurviveExactlyWhen`).
* An upload limit of the largest 64-bit number makes office saving store an empty body
  (`Stream.ReadForSave`).
* Disabling a user does not end an editor token minted before; it stays good for its 900 seconds
  (`EditorAccess.EditorTokenOutlivesDisabling`).
* A password record with an empty key part makes verification panic; no stored record has one
  (`Password.VerdictExactlyWhen`, `Password.PrintedIsReadBack`, `IdentityTheorems.NothingPanics`).

## Model

| member | source | states |
|---|---|---|
| CollabReplay.RecoveryIsFullReplay | backend/internal/markdown/collab/service.go:302-333 | For any log and snapshots that agree with it, the latest snapshot plus the later updates equals replaying every update from the initial content, and both equal the update with the highest number |
| CollabReplay.ReplayFrom | backend/internal/markdown/collab/service.go:318-332 | Replaying what follows a base gives the highest logged number above the base with its content, or the base itself when nothing follows |
| CollabInvariant.StepKeeps | backend/internal/markdown/collab/service.go:115-252 | The invariant of room, log, snapshots, calls, sessions, in-flight updates and queues survives any single event, including failed writes, joins, leaves and a restart |
| CollabInvariant.RunKeeps | backend/internal/markdown/collab/service.go:115-300 | ... and therefore every interleaving of any length |
| CollabTheorems.RecoveryLosesNothing | backend/internal/markdown/collab/service.go:205-252 | In every reachable state recovery equals full replay equals the head of the log, and the recovered number is at least every number whose update returned success |
| CollabInitial.InterruptedReadIsFullReplay | backend/internal/markdown/collab/service.go:302-333 | Recovery runs its queries with anything in between. With a log its result is the full replay of the log as the last query sees it; without one it is the document as read, which is the full replay iff nothing else was last saved since |
| CollabTheorems.LogIsAppendOnly | backend/internal/markdown/collab/repository.go:104-120 | Over every run, restarts included, no logged update changes or disappears, no success is forgotten and the head never moves back |
| CollabTheorems.NumbersAreUnique | backend/migrations/006_create_markdown_collab_tables.sql:22-23 | An insert that is about to run never meets its own number in the log, and all in-flight numbers differ and are at most the room's: the unique index is never hit |
| CollabTheorems.OneRoomAheadOfLog | backend/internal/markdown/collab/service.go:276-300 | The double-checked lookup installs one room only, whose number is at least every persisted number, although the store is read outside the lock |
| CollabTheorems.NumberedRoomIsCacheExactlyWhen | backend/internal/markdown/collab/service.go:205-212 | A room above number 0 equals what recovery returns if and only if its number is persisted; at number 0 nothing was ever logged |
| CollabInitial.RoomIsCacheExactlyWhen | backend/internal/markdown/collab/service.go:283-299 | Over every run: above number 0 the room equals recovery iff its number is persisted; at number 0 it shows the document as stored at some read of this process, and equals recovery iff the document was not last saved with other content since that read |
| CollabInitial.ZeroContentWasRead | backend/internal/markdown/collab/service.go:309-314 | Over every run, whatever a read, the room or the init of a session shows at number 0 is the document as it was stored at some read since the last restart |
| CollabInitial.WithoutSavesZeroIsInitial | backend/internal/markdown/collab/service.go:335-350 | Over every run without saves beside the room, all of those show the initial document |
| CollabTheorems.SavedBesideRoom | backend/internal/markdown/collab/service.go:309-314 | A concrete run in which the room shows the old document and recovery the newly saved one |
| CollabTheorems.OnlyEditorsWrite | backend/internal/markdown/collab/service.go:162-185 | Room content, room number and log change only by an event of a session whose edit flag was set when it joined |
| CollabTheorems.DeliveryHasNoGap | backend/internal/markdown/collab/service.go:133-160 | A session is a target of exactly the updates numbered above its init and given out before it left; it is never offered its own update nor one twice; its init carries the content of its number, whether given out in this process or recovered from the log |
| CollabTheorems.InitCarriesItsNumber | backend/internal/markdown/collab/service.go:133-142 | In every reachable state, restarts included, a session was shown the log's content of its init number, or, above 0 and outside the log, that of an update still unlogged |
| CollabTheorems.AllOrNothing | backend/internal/markdown/collab/service.go:224-251 | A finished update was offered to all its receivers and is logged and acknowledged, or to none after a failed write, or panicked at a receiver that had left |
| CollabTheorems.QueuedMessagesAreGenuine | backend/internal/markdown/collab/service.go:239-250 | Every queued update message has the content and the author given to its number, is not the receiver's own and is numbered above its init |
| CollabTheorems.NoUpdateTwice | backend/internal/markdown/collab/service.go:246-250 | In every reachable state no queue holds two messages of one number |
| CollabTheorems.OffersGoThrough | backend/internal/markdown/collab/service.go:246-250 | Offering to any distinct receivers that are still here enqueues the message to each (unless its queue is full) and to nobody else |
| CollabTheorems.BroadcastCanSucceedExactlyWhen | backend/internal/markdown/collab/service.go:413-418 | Some continuation lets a broadcast return success if and only if no receiver it still has to serve has left |
| CollabDelivery.OfferedIsDeliveredExactlyWhen | backend/internal/markdown/collab/service.go:413-418 | Over every run, a session that a broadcast has served was offered its message at one event, and the message ever entered its queue if and only if the queue was not full at that event |
| CollabDelivery.OfferedOnce | backend/internal/markdown/collab/service.go:246-250 | Over every run no session is offered an update at two events |
| CollabDelivery.SuccessReachesEveryReceiver | backend/internal/markdown/collab/service.go:224-251 | Over every run, a successful update entered the queue of every other session that joined below its number and had not left, or met that queue full at its one offer |
| CollabDelivery.NoUpdateTwiceEver | backend/internal/markdown/collab/service.go:246-250 | Over every run no number is ever put in one queue twice, messages already read included |
| CollabDelivery.QueueIsEndOfHistory | backend/internal/markdown/collab/service.go:124-143 | Over every run a queue is the end of everything ever put in it: messages are read first in first out and none is lost once in |
| CollabDelivery.LeaverPanicsBroadcast | backend/internal/markdown/collab/service.go:148-158 | For any users, document and update, a run of two joins, one logged update and a leave reaches a state whose broadcast can no longer succeed and whose next turn panics, with the update logged and never acknowledged |
| CollabDelivery.FullQueueDropsUpdate | backend/internal/markdown/collab/service.go:413-418 | For any users, document and update, a run in which the second session reads nothing: the update is logged and acknowledged, and was never in that session's queue |
| CollabBounded.ReplayIsBounded | backend/internal/markdown/collab/service.go:234-238 | After a run without failed writes, at rest, the log is 1..n without gap, the latest snapshot is at the last multiple of the interval and fewer than an interval of updates follow it |
| CollabServer.Server.LatestSnapshot | backend/internal/markdown/collab/repository.go:28-53 | Nothing exactly without snapshots, otherwise one with the greatest number |
| CollabServer.Server.ListUpdatesAfter | backend/internal/markdown/collab/repository.go:55-89 | The row loop returns exactly the logged updates above the number, in ascending order |
| CollabServer.Server.CurrentContent | backend/internal/markdown/collab/service.go:302-333 | The replay loop over the two queries computes the recovery that the theorems are about |
| CollabServer.Server.LoadContent | backend/internal/markdown/collab/service.go:302-333 | The read as part of a join performs the machine's read events and yields the head of the log |
| CollabServer.Server.CheckInstalled | backend/internal/markdown/collab/service.go:277-282 | The first locked lookup: the installed room or none |
| CollabServer.Server.InstallRoom | backend/internal/markdown/collab/service.go:287-299 | The second locked lookup installs a fresh room only if there is still none |
| CollabServer.Server.BuildRoom | backend/internal/markdown/collab/service.go:283-299 | The slow path reads the store and installs a fresh room that shows the head of the log, without clients |
| CollabServer.Server.GetRoom | backend/internal/markdown/collab/service.go:276-300 | The whole lookup is a run of the machine; a new room shows the head of the log |
| CollabServer.Server.EnterRoom | backend/internal/markdown/collab/service.go:133-142 | Membership and the init message are captured together in one critical section |
| CollabServer.Server.EnterAndInit | backend/internal/markdown/collab/service.go:133-143 | The new session's queue starts with the init of the room it entered |
| CollabServer.Server.Join | backend/internal/markdown/collab/service.go:115-146 | Join is a run of the machine that adds one session at the room's current number, keeps the invariant and writes nothing to the store |
| CollabServer.Server.LeaveRoom | backend/internal/markdown/collab/service.go:148-160 | Removes exactly this session from the room; a second leave changes nothing |
| CollabServer.Server.AssignNumber | backend/internal/markdown/collab/service.go:206-212 | Number, content and receivers are captured in one critical section |
| CollabServer.Server.CreateUpdate | backend/internal/markdown/collab/repository.go:104-120 | The insert succeeds exactly when the write is stored and the number is free |
| CollabServer.Server.CreateSnapshot | backend/internal/markdown/collab/service.go:352-365 | Appends the snapshot of the update's own number and content |
| CollabServer.Server.SendTo | backend/internal/markdown/collab/service.go:413-418 | One enqueue is one offer of the machine; it panics exactly for a session that has left |
| CollabServer.Server.PersistBoth | backend/internal/markdown/collab/service.go:224-238 | Both writes as machine events; success exactly when both that are due are stored |
| CollabServer.Server.Broadcast | backend/internal/markdown/collab/service.go:246-250 | The loop over the captured receivers offers to each but the author, once, in any order; it panics exactly when one of them has left, and what follows is then never offered |
| CollabServer.Server.BroadcastAll | backend/internal/markdown/collab/service.go:239-251 | Without a leaver every other receiver's queue has the message unless full, no other queue changed and the number is acknowledged; with one the number is not acknowledged; store and room stay |
| CollabServer.Server.PersistAndSend | backend/internal/markdown/collab/service.go:214-251 | The part outside the lock, whoever has left meanwhile: store error, panic or success exactly by the two write results and the leavers, with the new log, queues and acknowledged numbers |
| CollabServer.Server.UpdateStages | backend/internal/markdown/collab/service.go:205-252 | The critical section followed by the part outside the lock |
| CollabServer.Server.ApplyContentUpdate | backend/internal/markdown/collab/service.go:205-252 | The whole update is a run of the machine that keeps the invariant; it succeeds exactly when its due writes do, and then the log has the row and every other client the message |
| CollabServer.Server.RefuseUpdate | backend/internal/markdown/collab/service.go:171-174 | A refused update only puts an error message in its own session's queue, or panics exactly when that session has left |
| CollabServer.Server.Notify | backend/internal/markdown/collab/service.go:187-203 | Puts one message in the queue of each receiver unless it is full, and touches no other queue |
| CollabServer.Server.ApplyClientMessage | backend/internal/markdown/collab/service.go:162-252 | For any session: an editor's update is accepted exactly when its due writes are stored, else it failed; accepted, its number is acknowledged, its row logged and every other client's queue has it. A read-only session's is refused, or panics if it has left, and changes neither room nor store. Presence goes to every client, a valid cursor to every other one, anything else to nobody; all of these are accepted |
| StorageKey.SanitisedIsClean | backend/internal/document/service.go:527-536 | Every sanitised name is non-empty, over `[A-Za-z0-9._-]`, without `.`, `_` or `-` at either end |
| StorageKey.SanitiseFixesExactlyCleanNames | backend/internal/document/service.go:529-534 | A name is left as it is if and only if it is clean; hence sanitising twice is sanitising once |
| StorageKey.SanitiseReplacesRun | backend/internal/document/service.go:527-536 | Of a path's last element, punctuation at the ends goes and a run of unsafe characters between two clean parts becomes one underscore |
| StorageKey.SanitiseDefaults | backend/internal/document/service.go:532-534 | A name without a letter or digit, the empty one included, becomes `document` |
| StorageKey.BaseIsLastElement | backend/internal/document/service.go:530 | The base of a path is what follows its last slash, slashes at its end aside |
| StorageKey.KeysAreInjective | backend/internal/office/service.go:218 | For slash-free ids two keys are equal only if document, version and name are, whichever writer formatted them |
| VersionInvariant.StepKeeps | backend/internal/document/service.go:122-155 | The invariant of writers, objects, rows and documents survives any single step of any writer, success or failure |
| VersionInvariant.RunKeeps | backend/internal/document/service.go:98-383 | ... and every interleaving of any length |
| VersionInvariant.UncommittedKeyIsFree | backend/internal/share/service.go:200-215 | The key of a writer that has not committed is the key of no committed version |
| VersionInvariant.CommittedNumberIsNext | backend/internal/document/repository.go:263-272 | A row that a commit inserts has the number after the highest of its document |
| VersionTheorems.NoDanglingVersion | backend/internal/document/service.go:122-155 | In every reachable state each version's key holds exactly the bytes its writer put, of the recorded size, and no two versions share a key |
| VersionTheorems.NumbersAreOneToN | backend/internal/document/repository.go:256-317 | A document's version numbers are exactly 1..n, each once, and its current id, key and size are those of version n |
| VersionTheorems.CompensationSparesVersions | backend/internal/document/service.go:274-277 | Compensation removes the object of a version that was never committed; every committed object stays |
| VersionTheorems.HistoryIsAppendOnly | backend/internal/document/repository.go:274-289 | Over every run a version keeps its row and its bytes, and the highest number never decreases |
| VersionTheorems.OldDownloadsNeverChange | backend/internal/document/service.go:212-226 | As long as the document is not deleted, every version download returns the same bytes after any run |
| VersionTheorems.DownloadIsLatestVersion | backend/internal/document/service.go:200-210 | A download of an active document always finds its object and returns the version with the highest number |
| VersionTheorems.CommitSucceedsExactlyWhen | backend/internal/document/repository.go:263-311 | Without a database error a commit succeeds if and only if the document is not deleted and nobody committed since the number was read; otherwise all tables stay and compensation follows |
| VersionTheorems.CommitIsDownloaded | backend/internal/document/repository.go:291-316 | After a commit the download is what that writer put, under the next number |
| VersionTheorems.RestoreCopiesSource | backend/internal/document/service.go:243-274 | In every reachable state a committed restore holds the bytes of the version it restored |
| VersionTheorems.RestoreThenDownload | backend/internal/document/service.go:228-279 | When a restore commits, the download equals the restored version's and every other version download is unchanged |
| VersionTheorems.SecondSaverLosesRace | backend/migrations/003_create_document_tables.sql:30-31 | Of two savers that read the same number only the first commits; the second goes to compensation with nothing else changed |
| VersionServer.VersionStore.PutObject | backend/internal/document/service.go:123-125 | The put as a machine event, including one that takes effect and is reported as failed |
| VersionServer.VersionStore.DeleteObject | backend/internal/document/service.go:152 | The compensating delete, whose own failure is ignored |
| VersionServer.VersionStore.NextVersionNo | backend/internal/document/repository.go:263-271 | One more than the highest number of the document, or 1 |
| VersionServer.VersionStore.AddDocumentVersion | backend/internal/document/repository.go:256-317 | The transaction commits exactly when there is no error and the document is active; then exactly the new row and the three columns change, else nothing |
| VersionServer.VersionStore.CreateWithVersion | backend/internal/document/repository.go:32-83 | Inserts the document and its version 1 together, or neither |
| VersionServer.VersionStore.Delete | backend/internal/document/repository.go:192-212 | Succeeds exactly for an active document, which is then marked deleted; no other document and no other column changes |
| VersionServer.VersionStore.PutThenCommit | backend/internal/share/service.go:195-215 | Put, commit, compensate: on success one new object and row, on failure the same tables and, if the delete works, no left-over object |
| VersionServer.VersionStore.SaveSteps | backend/internal/document/service.go:320-351 | A save of an active document is one run of the machine; on success the download is the saved content |
| VersionServer.VersionStore.Save | backend/internal/document/service.go:309-361 | ... and keeps the invariant, for all three savers |
| VersionServer.VersionStore.RestoreSteps | backend/internal/document/service.go:239-277 | Succeeds exactly when the source version can be downloaded and the writes succeed; the download is then the source's |
| VersionServer.VersionStore.RestoreVersion | backend/internal/document/service.go:228-279 | ... keeps the invariant and every older version's download |
| VersionServer.VersionStore.UploadSteps | backend/internal/document/service.go:114-155 | Succeeds exactly with an owner, content and successful writes; then the document has the owner, the base name and version 1 with the content |
| VersionServer.VersionStore.Upload | backend/internal/document/service.go:98-156 | ... and keeps the invariant |
| Base64.RoundTrip | backend/internal/auth/local/password.go:31-32 | Decoding what was encoded gives the bytes back, for both alphabets and every length |
| Base64.EncodesByDigits | backend/internal/auth/local/password.go:31-32 | Three bytes are one number and four digits in base 64, written in order; one or two bytes are filled up with zero bits and give two or three symbols |
| Base64.SymbolsAreTheTable | backend/internal/office/service.go:476-485 | The symbols are those of the standard's table, and the alphabets differ in 62 and 63 only |
| Base64.NeverEncoded | backend/internal/office/service.go:476-485 | An encoding never contains a character outside its alphabet, in particular no separator |
| Base64.DecodesToNothingExactlyWhen | backend/internal/auth/local/password.go:49 | A text decodes to no bytes if and only if it consists of line breaks only |
| Text.SplitUndoesJoin | backend/internal/auth/local/password.go:28-38 | Splitting a join of separator-free parts gives the parts |
| Text.AtoiUndoesItoa | backend/internal/auth/local/password.go:30-44 | Reading a printed 64-bit number gives the number |
| Pbkdf2.XorInto | backend/internal/auth/local/password.go:81-83 | The in-place loop XORs the whole digest into the buffer, byte by byte |
| Pbkdf2.XorIsBitwise | backend/internal/auth/local/password.go:82 | A bit of the XOR of two bytes is set exactly when they differ in it |
| Pbkdf2.Block | backend/internal/auth/local/password.go:71-86 | One block is U_1 xor ... xor U_c of section 5.2 of RFC 8018 |
| Pbkdf2.Int4IsBigEndian | backend/internal/auth/local/password.go:74 | The four block-number bytes are its big-endian encoding, so block numbers below 2^32 are told apart |
| Pbkdf2.FirstRounds | backend/internal/auth/local/password.go:71-86 | For keys of one block the first round hashes the salt followed by the number 1 in four bytes, and the second hashes the first and is XORed to it |
| Pbkdf2.DeriveKey | backend/internal/auth/local/password.go:57-69 | The output is T_1, T_2, ... with the last block truncated as the standard writes it, and has the requested length |
| Pbkdf2.DerivedKeyLength | backend/internal/auth/local/password.go:62-68 | Rounding the block count up is enough for the final slice, for every key length |
| Password.PrintedIsReadBack | backend/internal/auth/local/password.go:28-54 | A printed line with any iteration count, salt and key panics exactly for the empty key, and otherwise is accepted exactly when the secret derives that key |
| Password.VerdictExactlyWhen | backend/internal/auth/local/password.go:36-60 | On any text verification panics if and only if there are four parts, this algorithm, a positive iteration count, a decodable salt and a key part of nothing but line breaks; it accepts if and only if those hold with a non-empty key that the secret derives |
| Password.RecordRoundTrip | backend/internal/auth/local/password.go:22-55 | A record printed for one secret is accepted for another exactly when both derive the same key, and never panics |
| Password.HashPassword | backend/internal/auth/local/password.go:22-34 | Prints the algorithm, 210000, the salt and the 32 bytes derived from the password followed by the pepper, in base64 and joined by `$`; the record is accepted for the same password and pepper |
| Password.VerifyPassword | backend/internal/auth/local/password.go:36-55 | On any text it panics exactly for an otherwise well-formed record with an empty key part, accepts exactly when the password followed by the pepper derives the decoded key, and rejects everything else |
| Password.PepperTellsPasswordsApart | backend/internal/auth/local/password.go:27 | Under one pepper the bytes that are hashed are equal exactly when the passwords are |
| Token.CompactFormSplits | backend/internal/office/service.go:475-490 | A signed token splits into exactly its three encoded parts |
| Token.VerifiedExactlyWhen | backend/internal/office/service.go:488-511 | On any text, claims are returned if and only if the secret has 16 bytes, there are three parts, the third decodes to the MAC of the first two under the secret, and the second decodes to these claims with a subject and a file id |
| Token.AccessExactlyWhen | backend/internal/office/service.go:433-453 | On any text, access is that of the subject's current role exactly for a token that carries this MAC, names this file and kind and has not expired; every other text is refused |
| Token.AsciiTellsApart | backend/internal/office/service.go:497-498 | The MAC covers the text itself: different texts have different bytes |
| Token.TokenRoundTrip | backend/internal/office/service.go:475-511 | With a secret of 16 bytes or more verification returns the signed claims exactly when subject and file id are non-empty; with a shorter one nothing |
| Token.MintedTokenIsValidExactlyWhen | backend/internal/office/service.go:455-473 | A token minted at t is accepted if and only if user and file id are non-empty, the file matches and now < t + 900 |
| Token.AccessIsCurrentRole | backend/internal/office/service.go:433-453 | What a minted token allows depends on the current role only, never on the role written into it |
| Token.ShownRoleIsMinted | backend/internal/office/service.go:414-431 | The role shown by the page is the minted one, for the token's own file only |
| Stream.Source.Read | backend/internal/office/service.go:367 | An arbitrary reader: delivers a prefix of what is left, at most the room given, with or without an end or an error on the last bytes |
| Stream.LimitedReader.Read | backend/internal/office/service.go:360-370 | Delivers a prefix of what is left, never more than remains of the limit, and counts it |
| Stream.ReadAllLimited | backend/internal/office/service.go:206-210 | Reading to the end yields the first min(body, limit) bytes, however the reader chunks them |
| Stream.ReadForSave | backend/internal/office/service.go:206-213 | Too large exactly when the body exceeds the configured limit, or 50 MiB where none is configured; otherwise the whole body is put. This holds if and only if the limit plus one does not overflow or the body is empty |
| Stream.ReadFull | backend/internal/document/service.go:455-459 | Reads min(512, body) bytes however they are chunked, and leaves the rest |
| Stream.ReadAll | backend/internal/document/service.go:252-255 | Reads the rest of the body |
| Stream.SniffThenStore | backend/internal/document/service.go:455-473 | The re-assembled stream is the whole upload, byte for byte |
| PermissionTheorems.StepKeeps | backend/migrations/004_create_document_permissions.sql:11-12 | Every request keeps primary keys and the unique (document, subject) index, and stores only user rows with viewer or editor |
| PermissionTheorems.RunKeeps | backend/internal/permission/service.go:101-147 | ... over every run |
| PermissionTheorems.SelectedElements | backend/internal/document/repository.go:117-122 | The joined and filtered rows contain exactly the active documents that the user owns or has a viewer or editor row for |
| PermissionTheorems.RoleMeans | backend/internal/permission/service.go:38-63 | The role function gives a role exactly for the active documents that the user owns or holds a granting row for |
| PermissionTheorems.RoleExactlyWhen | backend/internal/permission/service.go:38-63 | Read off the tables: owner exactly with an active document of the user; editor, or viewer, exactly with an active document of somebody else and an `editor`, or `viewer`, row for the user; none for empty ids |
| PermissionTheorems.ListingAgreesWithRole | backend/internal/document/repository.go:114-143 | In every state reached by uploads, grants, re-grants, revocations and deletions the listing holds exactly the documents on which the user has a role, each once |
| PermissionTheorems.FindAfterUpsert | backend/internal/permission/repository.go:90-110 | After an upsert the pair's row has the new permission and, if it existed, its old id; every other pair's row is the same |
| PermissionTheorems.GrantChangesOnlyItsPair | backend/internal/permission/service.go:101-133 | A grant that goes through gives its subject the permission on its document, never changes an owner's role and no other role at all; a refused one changes none |
| PermissionTheorems.RevokeUndoesFirstGrantOnly | backend/internal/permission/repository.go:96-130 | Revoking the id a grant returned restores the tables if and only if the pair had no row before; otherwise it finds nothing |
| PermissionTheorems.RegrantCannotBeRevoked | backend/internal/permission/repository.go:96-130 | For any users and ids, the run upload, grant, grant again: revoking the second id finds nothing and the second role stays |
| PermissionTheorems.RevokeTakesOnlyItsRole | backend/internal/permission/service.go:135-147 | An owner's revocation goes through exactly when some user holds the row on that document; it takes that user's role, unless they own the document, and no other |
| PermissionTheorems.OnlyTheOwnerChangesRoles | backend/internal/permission/service.go:108-146 | Over every run without a request by the owner on the document or an admin deletion of it, nobody's role on it changes |
| PermissionTheorems.OwnershipIsPermanent | backend/internal/document/repository.go:165-212 | Over every run a document keeps its owner and can only go from active to deleted |
| PermissionTheorems.DeletedStaysHidden | backend/internal/permission/repository.go:32-46 | Nobody ever has a role on a deleted document again |
| PermissionServer.PermissionStore.DocumentOwnerID | backend/internal/permission/repository.go:32-46 | Some owner exactly when the table has an active row with this id and owner |
| PermissionServer.PermissionStore.FindForUser | backend/internal/permission/repository.go:48-58 | A row exactly when it is in the table and is the user's on this document |
| PermissionServer.PermissionStore.Role | backend/internal/permission/service.go:38-63 | The branches give owner, editor or viewer exactly as the tables say: by an active document of the user, or by a row with `editor` or `viewer` on somebody else's active document |
| PermissionServer.PermissionStore.CanView | backend/internal/permission/service.go:65-68 | True exactly for a user with a role |
| PermissionServer.PermissionStore.CanEdit | backend/internal/permission/service.go:70-73 | True exactly for the owner of an active document or the holder of an `editor` row on somebody else's |
| PermissionServer.PermissionStore.CanManage | backend/internal/permission/service.go:75-78 | True exactly for the owner |
| PermissionServer.PermissionStore.CreateRow | backend/internal/permission/repository.go:90-110 | Goes through exactly when the pair has a row or the id is unused; then the pair has one row, with the new permission and the old id if there was one, and every other row is as before |
| PermissionServer.PermissionStore.DeleteRow | backend/internal/permission/repository.go:112-130 | Removes exactly the row with this id on this document, and reports whether there was one |
| PermissionServer.PermissionStore.Grant | backend/internal/permission/service.go:101-133 | Answers as the machine's grant, goes through exactly for the owner, a non-empty user subject, a permission `editor` or `viewer` and a row that can be stored; the subject then has the editor or viewer role named, an owner keeps theirs, and nobody else's role changes |
| PermissionServer.PermissionStore.Delete | backend/internal/permission/service.go:135-147 | Answers as the machine's revocation; the role of the row's holder is taken, unless they own the document, and no other |
| PermissionServer.PermissionStore.UploadDocument | backend/internal/document/service.go:98-156 | As far as the document row is concerned, performs the machine's upload; the uploader is then the owner |
| PermissionServer.PermissionStore.SoftDeleteAdmin | backend/internal/document/service.go:179-188 | Whatever it answers, nobody has a role on the document afterwards |
| PermissionServer.PermissionStore.DeleteDocument | backend/internal/document/service.go:363-384 | Performs the machine's deletion by the owner; when it goes through nobody has a role on the document |
| PermissionServer.PermissionStore.ListAccessible | backend/internal/document/repository.go:114-143 | Always lists exactly the documents on which the user has a role, each once |
| IdentityInvariant.UserChangesOnlyBy | backend/internal/auth/local/repository.go:84-165 | A user never disappears; its source is fixed; email changes only by an administrator's edit of a local user, the name by such an edit or by the user's own profile update, flags only by an administrator's edit, the password only by itself or an administrator, the subject only by a merging callback |
| IdentityInvariant.UpsertKeepsUnique | backend/internal/auth/oidc/service.go:174-225 | A callback keeps emails and OIDC subjects unique |
| IdentityInvariant.AdminUpdateKeepsUnique | backend/internal/auth/local/repository.go:150-165 | An administrator's edit keeps emails and OIDC subjects unique |
| IdentityInvariant.StepEvolvesSessions | backend/internal/auth/oidc/service.go:227-249 | A request opens at most one session, for a token never handed out before; other sessions are kept unchanged or dropped; the clock never goes back |
| IdentityInvariant.StepKeeps | backend/internal/auth/local/service.go:113-373 | Unique emails, subjects and token hashes, sessions of existing users and printed password records survive every request |
| IdentityInvariant.RunKeeps | backend/internal/auth/local/service.go:113-373 | ... over every run |
| IdentityTheorems.OneUserPerEmailAndSubject | backend/migrations/002_add_oidc_subject_unique_index.sql:1-3 | Over every run each email and each OIDC subject belongs to at most one user |
| IdentityTheorems.AuthenticatedExactlyWhen | backend/internal/auth/local/service.go:340-366 | A token authenticates a user if and only if it is not empty and an unexpired session of that enabled user has its hash |
| IdentityTheorems.BindingIsLostExactlyWhen | backend/internal/auth/oidc/service.go:174-195 | One request unbinds a subject from its user if and only if merging is on and a callback with an unbound subject shows the email of that enabled user; otherwise the subject still resolves to the same user |
| IdentityTheorems.BindingIsPermanent | backend/internal/auth/oidc/service.go:174-190 | With merging off a bound subject resolves to the same user in every later state |
| IdentityTheorems.RepeatedCallbackSameUser | backend/internal/auth/oidc/service.go:174-225 | With merging off, after a callback that found or inserted a user, even one whose session was then not stored, any later callback with that subject creates no user and signs in no other, whatever happened between and whatever email it shows |
| IdentityTheorems.MergingUnbinds | backend/internal/auth/oidc/service.go:186-195 | With merging on, a second subject with the same email takes the user over and the first is bound to nobody |
| IdentityTheorems.DeadStaysDead | backend/internal/auth/local/service.go:340-354 | A token that was handed out and has no unexpired session has none after any run |
| IdentityTheorems.EndedTokenNeverAuthenticates | backend/internal/auth/local/service.go:320-373 | A token that was logged out, revoked or has expired authenticates nobody after any later run |
| IdentityTheorems.SessionEndsExactlyWhen | backend/internal/auth/local/service.go:320-373 | An unexpired session is removed by a request if and only if that is its own logout or a revocation by the same user through another token; in particular never by its own caller's revocation |
| IdentityTheorems.RevokerStaysIn | backend/internal/auth/local/service.go:331-337 | The caller of a revocation is still authenticated afterwards |
| IdentityTheorems.SessionLives | backend/internal/auth/local/service.go:340-366 | Until it expires a session authenticates its user over every run without its logout, a revocation of it or a disabling of the user |
| IdentityTheorems.AdministratorsNeverVanish | backend/internal/server/server.go:85-98 | Once there is an enabled administrator there is one after every run |
| IdentityTheorems.AdminsSurviveExactlyWhen | backend/internal/auth/local/service.go:266-297 | The service call with a caller authenticated earlier leaves an enabled administrator if and only if another one exists or the target ends as one |
| IdentityTheorems.StaleActorsDemoteEachOther | backend/internal/auth/local/service.go:267-272 | Two administrators authenticated before either edit can leave none |
| IdentityTheorems.DisabledUserStaysOut | backend/internal/auth/local/service.go:157-159 | Over every run in which no administrator enables them again, a disabled user is authenticated by no token and signed in by no login or callback |
| IdentityTheorems.LoginByEmail | backend/internal/auth/local/service.go:145-184 | For an enabled local user the login under their current email is decided by the stored password record alone |
| IdentityTheorems.LoggedInIsIn | backend/internal/auth/local/service.go:163-183 | A login that signs a user in opens a session that authenticates them, under the email given |
| IdentityTheorems.CalledBackIsIn | backend/internal/auth/oidc/service.go:156-160 | A callback that signs a user in opens a session that authenticates them, and its subject is bound to them |
| IdentityTheorems.ChangedPasswordDecidesLogin | backend/internal/auth/local/service.go:186-211 | After a password change a password logs in if and only if, with the pepper, it derives the same key as the new one |
| IdentityTheorems.CurrentPasswordDecides | backend/internal/auth/local/service.go:186-211 | A proper request goes through exactly when the current password, with the pepper, derives the key of the password behind the stored record, and then replaces that record only; otherwise it is refused and nothing changes |
| IdentityTheorems.NothingPanics | backend/internal/auth/local/service.go:160-203 | In no state of any run does checking a password panic |
| IdentityTheorems.RegisterThenLogin | backend/internal/auth/local/service.go:113-184 | Who registered can log in with the same email and password, and the token then authenticates them |
| IdentityServer.AccountStore.FindByEmail | backend/internal/auth/local/repository.go:69-72 | The one user with the email, if any |
| IdentityServer.AccountStore.FindByOIDCSubject | backend/internal/auth/local/repository.go:79-82 | The one user with the subject, if any |
| IdentityServer.AccountStore.FindSessionByTokenHash | backend/internal/auth/local/repository.go:208-222 | The one session with the token hash, if any |
| IdentityServer.AccountStore.CreateUser | backend/internal/auth/local/repository.go:41-67 | Inserts exactly when id, email and subject are free |
| IdentityServer.AccountStore.SetOIDCSubject | backend/internal/auth/local/repository.go:84-93 | Sets the subject exactly when no other user has it |
| IdentityServer.AccountStore.UpdateRow | backend/internal/auth/local/repository.go:150-165 | Changes exactly the given columns, refused exactly when another user has the email |
| IdentityServer.AccountStore.DeleteSessionByTokenHash | backend/internal/auth/local/repository.go:276-282 | A session stays, unchanged, exactly when its hash is another |
| IdentityServer.AccountStore.CreateSession | backend/internal/auth/oidc/service.go:227-249 | Stores the session of a fresh token, or fails and changes nothing |
| IdentityServer.AccountStore.Authenticate | backend/internal/auth/local/service.go:340-366 | Authenticates as the theorems say; only a presented expired session is removed |
| IdentityServer.AccountStore.CurrentUser | backend/internal/auth/local/service.go:340-366 | The user found exists and is enabled; the token of a session presented too late authenticates nobody in any later run |
| IdentityServer.AccountStore.Logout | backend/internal/auth/local/service.go:368-373 | Afterwards the token authenticates nobody, and if it ever was handed out, nobody in any later run |
| IdentityServer.AccountStore.RevokeSession | backend/internal/auth/local/service.go:320-338 | Goes through exactly for another session of the caller's own, and removes that one only. The caller stays authenticated; the token of a revoked session authenticates nobody in any later run |
| IdentityServer.AccountStore.ListSessions | backend/internal/auth/local/service.go:299-318 | Lists exactly the user's unexpired sessions, each once, newest first, marking those with the caller's token hash |
| IdentityServer.AccountStore.Register | backend/internal/auth/local/service.go:113-143 | Goes through exactly for a valid and unused email, an unused id, a name and 8 bytes of password; it then adds exactly one local, enabled user who is no administrator and whose record accepts the password |
| IdentityServer.AccountStore.Login | backend/internal/auth/local/service.go:145-184 | Never panics; signs in only the enabled local user with the email whose record accepts the password, by exactly one new session that ends `ttl` from now and whose token authenticates them; otherwise no session changes |
| IdentityServer.AccountStore.UpsertOIDCUser | backend/internal/auth/oidc/service.go:174-225 | Performs the machine's find, merge or insert with the same answer |
| IdentityServer.AccountStore.Callback | backend/internal/auth/oidc/service.go:152-160 | Who is signed in had the profile's subject (the token's where the profile has none), or had its email with merging on, or is new with the profile's data; the subject is then bound to them, one session is added that ends `ttl` from now, and its token authenticates them. The user stays even when the session cannot be stored |
| IdentityServer.AccountStore.AdminUpdateUser | backend/internal/auth/local/service.go:266-297 | Performs the machine's edit with the caller as authenticated before |
| IdentityServer.AccountStore.AdminUpdateRoute | backend/internal/auth/local/handler.go:324-340 | Authentication, administrator check and edit as one step: it goes through exactly for a proper edit by an enabled administrator who neither demotes nor disables themselves; it sets exactly the columns sent, trimmed or normalised, on the target only; it leaves an enabled administrator, and when it goes through the caller is still one |
| IdentityServer.AccountStore.SetPasswordHash | backend/internal/auth/local/repository.go:95-113 | Changes the password column of one user and nothing else |
| IdentityServer.AccountStore.ChangePassword | backend/internal/auth/local/service.go:186-211 | Goes through exactly for an authenticated local user with a record, a current password that the record accepts and a new one of 8 bytes or more; refused with invalid credentials exactly when, all else fitting, the record rejects the current one. Users are unchanged unless it goes through, and then only the caller's record is, to one that accepts the new password; it never panics |
| IdentityServer.AccountStore.UpdateProfile | backend/internal/auth/local/service.go:213-229 | Goes through exactly for an authenticated caller, local or not, and a trimmed name of 1 to 120 characters; the caller then has that name, and no other user or column changes |
| IdentityServer.AccountStore.AdminResetPassword | backend/internal/auth/local/service.go:248-264 | Goes through exactly for an administrator, an existing local user with a record and 8 bytes of password; then only that record changes, to one that accepts the new password |
| EditorAccess.TokenOpensWhatIsListed | backend/internal/office/service.go:433-453 | Before it expires a minted token opens its editor exactly for the documents that the listing shows its user then, for writing or viewing by the current role |
| EditorAccess.EditorTokenOutlivesDisabling | backend/internal/office/service.go:467-473 | A disabled user is authenticated by no session, yet an editor token minted before still opens the editor until it expires |

## Left out

- HTTP handlers, routing, websocket framing, the MinIO client, SQL driver, migrations runner, configuration, audit log, avatars, pagination, MIME tables: plumbing or single-branch code that no property here reads.
- The frontend, the office editors and deployment are not part of this model.
- One document is followed in the collaboration machine: rooms of different documents share no state but the map that holds them.
- Update numbers are unbounded; an int64 overflow of the sequence is not modelled.
- Presence and cursor messages have no content here and only fill queues; the presence broadcasts that end a join and a leave may happen at any time in the machine, and their own sends to a closed queue are not modelled.
- CollabServer.Server.ApplyContentUpdate: runs undisturbed, so nobody leaves between its critical section and its broadcast; PersistAndSend and Broadcast take receivers that have left, and every interleaving is in the machine.
- An insert that a dying process had sent and that the database commits only after the next process has recovered is not modelled: a restart ends its writes.
- Updates entering a queue in the order of their numbers and the init entering first are not claimed; the code does not give them.
- A database error at commit is modelled as "not committed". Deletion of raw objects by an administrator is excluded, since it removes committed objects by design.
- Upload's declared size is taken to be the number of bytes stored; its size limit, extension and MIME checks and the check for a blank file name are left out.
- Orphan objects of writers that stopped or whose compensating delete failed are possible and not excluded.
- The reads that follow a commit (the returned version or document) may fail without undoing it; they are left out.
- VersionServer.VersionStore.Save: one method for the three savers, which differ in their access checks and in the key's file name only; access checks and share-link validity are outside it.
- VersionServer.VersionStore.PutThenCommit: the common tail of the writers, repeated in the source.
- Ids are strings drawn fresh and without a slash, as UUIDs are; the database's refusal of malformed UUIDs is not modelled.
- PermissionServer.PermissionStore.ListAccessible: the order of the listing is the table's; sorting by update time is not modelled.
- Listing a document's permission rows and the display names joined to them are left out.
- Permission and identity requests are atomic; what separate authentication costs is shown for administrators only.
- SQL statements that fail for other reasons than an index are requests that did not happen, except for the session insert after a sign-in and the writes of the collaboration and version stores.
- Email normalisation, the email pattern and space trimming are arbitrary functions; name lengths count characters, the source counts bytes.
- IdentityServer.AccountStore.Login: requires a token never handed out before, as 32 random bytes are.
- IdentityServer.AccountStore.Callback: starts where the identity provider has delivered the verified profile; the exchange before it is left out.
- IdentityServer.AccountStore.ListSessions: uses the service's clock where the query uses the database's.
- EditorAccess.TokenOpensWhatIsListed: the role is read in one step; the source asks for viewing and for editing one after the other.
- Timing of comparisons is not modelled.
