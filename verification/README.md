# Verified core of maildancer

A Dafny 4.11 model of the parts of maildancer whose correctness lies in long runs, interleavings
or transformations, with proofs of what they promise. `dafny verify dfyconfig.toml` checks all of it.

| files | what they model |
|---|---|
| `UidList`, `UidRules`, `UidFile`, `UidGrammar`, `UidRuns` | the `.uidlist` of a Maildir folder: reconciliation, its text form, which files are readable, and every run of load, reconcile, write and reload (section 2.3.1.1 of RFC 3501) |
| `MaildirStore`, `ImapExpunge`, `ImapMove` | one folder with its cached list and deletion marks, and the IMAP session on top of it that queues EXPUNGE responses for EXPUNGE and for both ways to MOVE (section 7.4.1 of RFC 3501, section 3.3 of RFC 6851) |
| `Search`, `SearchLaws` | IMAP SEARCH through one deduplicated content scan, and what each search key selects (section 6.4.4 of RFC 3501) |
| `TomlPatch`, `TomlRead`, `TomlLines` | the comment-preserving configuration patcher and the reader that must agree with it; what is read, in terms of the text; and what a patch leaves alone |
| `ConnFork`, `ConnLives` | the fork-per-connection dispatcher as interleaved steps, and the life of each connection in a run |
| `SmSession`, `SmRetry` | the recovering session-manager client as interleaved steps, and the bound on its retry loop |
| `PeerGate`, `ConnRate` | the two-generation verdict cache and connection-rate counter |
| `LimitStore`, `AuthLimiter` | the authentication lockout limiter |
| `OidcKeys`, `IdAlloc` | the ledgers of signing keys and of numeric ids |
| `KeyringEntries`, `SealedKeyring` | the keyring and its sealed form, with ideal cryptography |
| `Text` | the text primitives the file formats rest on |

Objects that the program updates in place are classes whose methods are proved against functions on
values. What the program promises is then proved about those functions, over every run. Concurrent
code is a state machine whose steps are the critical sections of the program. Clocks, randomness, the
network, the file system's answers and the server's answers are parameters.

Some documented promises turned out to hold only under a condition. Each has a lemma with the exact
condition or a family of inputs that breaks it:

- a UID list reads back only when its keys fit on one line (`RoundTripIff`); otherwise a UID can be
  bound to a second key (`NewlineKeyRebindsUid`);
- reconciling stays consistent exactly until the 32-bit counter wraps (`ReconcileConsistentIffFits`);
- CopyMessage reports the copy's UID exactly when the copy is in cur/ and no other new key sorts after
  it (`CopyUidIffGreatestNewKey`);
- Move's EXPUNGE numbers are right exactly when no message was named twice (`MoveQueueCorrectIff`);
  whether Move can be handed a repeated index rests on `Nums()` of go-imap, which is not part of this
  model;
- a quoted configuration value survives exactly when it holds no newline (`QuotedValueIff`), and
  removing a key unsets it exactly when its table set it once (`RemoveUnsetsIff`);
- a nil return from session recovery means that the session holds a token exactly when no close and no
  refused re-login came after the last login or commit (`RecoveredHoldsTokenIff`,
  `RecoveredWithoutToken`);
- two overlapping lookups of one peer can bring an older verdict back exactly when the second insert
  leaves behind an entry that expires later (`BringsBackIff`, `HitIsNewest`, `HarmfulHitsOlder`);
- the id allocator hands out zero after its last id (`NextIsAllocatableIff`, `OneTooMany`);
- rotating in a signing key leaves no encryption key in use (`RotationUsesNewIff`).

## Model

| member | source | states |
|---|---|---|
| UidList.SortKeysSorts | msgstore/maildir/uidlist.go:211-218 | the sorted new keys are in order and are the same keys, with the same multiplicities |
| UidList.KeyLeIsLexicographic | msgstore/maildir/uidlist.go:218 | the order of the keys is the lexicographic one: a prefix first, otherwise the smaller character where two keys first differ |
| UidList.UidList.Bootstrap | msgstore/maildir/uidlist.go:234-254 | a first list numbers the sorted keys; what that makes it is `BootstrapIsFirstList` |
| UidList.UidList.Prune | msgstore/maildir/uidlist.go:187-212 | exactly the entries whose key left the snapshot go, from the list and from both indexes; changed tells whether any did |
| UidList.UidList.Reconcile | msgstore/maildir/uidlist.go:187-230 | the new list is the pruned one followed by the new keys in order with the next UIDs; false exactly when nothing needs writing |
| UidRules.DistinctIffInverse | msgstore/maildir/uidlist.go:187-254 | the two indexes of a consistent list are mutual inverses if and only if no key is listed twice |
| UidRules.PruneKeepsConsistent | msgstore/maildir/uidlist.go:187-212 | pruning keeps the list consistent and its keys distinct |
| UidRules.ReconcileConsistentIffFits | msgstore/maildir/uidlist.go:187-230 | against any snapshot, stale or with repeats, the list stays consistent if and only if the 32-bit counter does not wrap |
| UidRules.ReconcileExtends | msgstore/maildir/uidlist.go:187-230 | every binding of the new list is an old one or uses a UID never issued before, and the counter does not fall |
| UidRules.ReconcileTracksSnapshot | msgstore/maildir/uidlist.go:187-230 | the list's keys become exactly the snapshot's and a key already listed keeps its UID |
| UidRules.ReconcileKeepsInverse | msgstore/maildir/uidlist.go:187-230 | snapshots without repeats keep the two indexes mutual inverses |
| UidRules.UnchangedIsIdentity | msgstore/maildir/uidlist.go:187-230 | a reconcile that reports no change made none |
| UidRules.BootstrapConsistent | msgstore/maildir/uidlist.go:234-254 | a first list is consistent and lists exactly the keys given |
| UidRules.BootstrapIsFirstList | msgstore/maildir/uidlist.go:234-254 | a first list has version 3, the time as its validity, the keys sorted with the UIDs 1, 2, 3 and so on, each key as often as it was given, and the number after them next |
| UidRules.ReconcileInOrder | msgstore/maildir/uidlist.go:187-230 | a reconciled list is the old entries still in the snapshot, in their order, followed by exactly the keys not listed before, sorted and numbered from the old next UID on; version and validity stay |
| UidRules.UidsBelowNext | msgstore/maildir/uidlist.go:187-254 | every listed UID is below the next one |
| UidRules.CopyUidIffGreatestNewKey | msgstore/maildir/store.go:1136-1195 | the UID CopyMessage reports is the copy's if and only if the copy is in cur/, not in new/, and no other new key sorts after it |
| UidFile.HeaderRoundTrip | msgstore/maildir/uidlist.go:85-119 | every written header parses back to its version, validity and next UID |
| UidFile.PlainEntriesReadBack | msgstore/maildir/uidlist.go:122-183 | plain entries read back in order and completely |
| UidFile.ReadBackWasPlain | msgstore/maildir/uidlist.go:122-183 | entries that read back were plain |
| UidFile.ReadRender | msgstore/maildir/uidlist.go:40-183 | reading a written file is reading its header and its entries, and fails on a line too long for the scanner |
| UidFile.RoundTripIff | msgstore/maildir/uidlist.go:40-183 | a written list reads back as itself if and only if its indexes are those of its entries and every key is non-empty, newline-free, without a final carriage return and short enough |
| UidGrammar.ParseEntryIff | msgstore/maildir/uidlist.go:122-137 | a line is an entry if and only if it is digits for a 32-bit UID, one space and a non-empty key |
| UidGrammar.ParsedIsHeaderText | msgstore/maildir/uidlist.go:85-119 | a header that parses is three words: a signed number, V and digits, N and digits |
| UidGrammar.HeaderTextParses | msgstore/maildir/uidlist.go:85-119 | every such line parses, to these numbers |
| UidGrammar.ReadIff | msgstore/maildir/uidlist.go:40-137 | any file is read as a list if and only if it is a header line and entry lines, empty lines aside and none too long, and the list holds these entries and their indexes; every other file is corrupt |
| UidRuns.WriteUidList | msgstore/maildir/uidlist.go:140-183 | the loop writes the rendered list |
| UidRuns.ReadUidList | msgstore/maildir/uidlist.go:40-82 | the scanning loop returns what the file denotes, and fails exactly when it denotes nothing |
| UidRuns.LoadOrBootstrap | msgstore/maildir/uidlist.go:284-307 | one call's list and file: bootstrap without a usable file, else reconcile and write back when changed; what the two make of it is `UnreadableStartsEpoch` |
| UidRuns.UnreadableStartsEpoch | msgstore/maildir/uidlist.go:284-307 | a call on a missing or corrupt file starts over: its own time as validity, and the snapshot's keys sorted and numbered from 1; on a readable file it keeps the validity and numbers only new keys, in order |
| UidRuns.EpochKeepsValidity | msgstore/maildir/uidlist.go:284-307 | over every run of an epoch the validity is that of its first list |
| UidRuns.LoadReadsBack | msgstore/maildir/uidlist.go:284-307 | what a call returns is consistent, tracks the snapshot, and is what the file holds afterwards |
| UidRuns.RunReadsBack | msgstore/maildir/uidlist.go:284-307 | after any run the file holds the last list returned |
| UidRuns.EachStepReconciles | msgstore/maildir/uidlist.go:284-307 | within an epoch each call reconciles the list of the call before |
| UidRuns.LaterExtendsEarlier | msgstore/maildir/uidlist.go:284-307 | every later list of an epoch extends every earlier one |
| UidRuns.UidNeverRebound | msgstore/maildir/uidlist.go:187-307 | over every run of an epoch the next UID never falls, all UIDs are below it, and a UID is never bound to a second key |
| UidRuns.DroppedUidNeverReturns | msgstore/maildir/uidlist.go:187-307 | a UID that left the list never comes back in that epoch |
| UidRuns.KeyKeepsUid | msgstore/maildir/uidlist.go:187-307 | a key keeps its first UID for as long as it is in every snapshot |
| UidRuns.RunKeepsInverse | msgstore/maildir/uidlist.go:187-307 | with snapshots of distinct keys, entries stay strictly ascending and the indexes stay mutual inverses |
| UidRuns.NewlineKeyRebindsUid | msgstore/maildir/uidlist.go:140-183 | a key with a newline is written as two lines, and its UID reads back bound to another key |
| MaildirStore.BuildInfos | msgstore/maildir/store.go:163-243 | the listing loop shows exactly the listed, present, unmarked messages, each flagged exactly when its file name carries the flag |
| MaildirStore.LoadExtendsLedger | msgstore/maildir/store.go:246-293 | a load by any process issues only UIDs never issued before, so that no binding ever issued is lost or changed |
| MaildirStore.ShrinkingReconcile | msgstore/maildir/store.go:478-538 | against a snapshot without new keys reconciling only prunes |
| MaildirStore.Folder.LoadLocked | msgstore/maildir/store.go:163-243 | a locked load leaves the list it returns on disk, and its keys are the snapshot |
| MaildirStore.Folder.OthersLoad | msgstore/maildir/uidlist.go:284-307 | loads by others while the lock is free, against any snapshots, keep the cache an earlier list of the epoch |
| MaildirStore.Folder.List | msgstore/maildir/store.go:163-243 | a listing shows exactly the entries of the loaded list that are unmarked and in cur/, each flagged exactly when its file name carries the flag; the list is cached after the lock is released, so that the file may be newer by then |
| MaildirStore.Folder.LookupKey | msgstore/maildir/store.go:260-293 | through a stale cache or not, the key found for a UID is the one it was issued with: the key the disk lists, or one since removed; never another message's |
| MaildirStore.Folder.Delete | msgstore/maildir/store.go:466-475 | deleting only marks |
| MaildirStore.Folder.Append | msgstore/maildir/store.go:1014-1049 | the UID reported for an appended message is the one the disk lists for its key, it is not found exactly when the key has left cur/ again, and its deletion flag is set when asked for, no other one changing |
| MaildirStore.Folder.Expunge | msgstore/maildir/store.go:478-538 | exactly the marked messages whose file can be removed go; the marks are cleared; on success the list is reconciled with cur/ as it is then, arrivals included |
| ImapExpunge.ApplyDescending | internal/imapd/backend/storeops.go:19-65 | a client applying the queued numbers in order loses exactly the queued messages |
| ImapExpunge.DescendingMembers | internal/imapd/backend/storeops.go:26-50 | the numbers queued are one more than the positions selected, and each is below the one before it |
| ImapExpunge.MoveQueueCorrectIff | internal/imapd/backend/storeops.go:172-269 | the numbers queued for a move remove exactly the moved messages if and only if none was named twice |
| ImapExpunge.VisibleEqualIff | msgstore/maildir/store.go:163-243 | two sets of marks show the same list if and only if they mark the same listed UIDs |
| ImapExpunge.ClientMatchesRelistIff | internal/imapd/backend/storeops.go:19-65 | after an expunge the client's view equals the folder listed again if and only if no other mark was set meanwhile |
| ImapExpunge.MoveMatchesRelistIff | internal/imapd/backend/storeops.go:172-269 | the same after a move |
| ImapExpunge.RelistIsStable | msgstore/maildir/store.go:478-538 | listing again after an expunge neither assigns nor drops a UID |
| ImapExpunge.Session.MarkSelected | internal/imapd/backend/storeops.go:19-65 | the loop marks and queues exactly the selected messages that can be marked, highest number first |
| ImapExpunge.ExpungeInStepIff | internal/imapd/backend/storeops.go:19-65 | the condition of the next row, on values |
| ImapExpunge.QueuedAreRemoved | internal/imapd/backend/storeops.go:19-65 | on values: a listed message is removed if its number is queued, and otherwise kept in the folder and in the list |
| ImapExpunge.Session.Expunge | internal/imapd/backend/storeops.go:19-65 | the numbers queued fall strictly and are exactly those of the messages that are flagged, in the UID set if one is given, and not refused; when the view was the folder as listed and nothing was marked, the queued messages are gone from cur/ and every other one is still there and listed; and a client applying the queue ends with the session's new view if and only if nothing was expunged or the store's marks were those hidden from the view |
| ImapExpunge.Session.MarkMoved | internal/imapd/backend/storeops.go:172-269 | the copy loop succeeds exactly when every copy does, and has then marked every message in range |
| ImapExpunge.Session.QueueMoved | internal/imapd/backend/storeops.go:172-269 | the queueing loop appends the in-range positions from the last to the first |
| ImapExpunge.MoveInStep | internal/imapd/backend/storeops.go:172-269 | after a move the client's view equals the folder listed again exactly when the marks agree, if nothing was named twice, and exactly when nothing was named twice, if the marks agree |
| ImapExpunge.Session.Move | internal/imapd/backend/storeops.go:172-269 | a failed copy leaves queue and view alone; otherwise the marked messages go, their numbers are queued, the folder is listed again, and the client is in step exactly under those conditions |
| ImapMove.PrunedWithin | internal/mail-session/session/session.go:370-402 | expunging in two steps leaves the same list as expunging at once |
| ImapMove.LeftOfMore | internal/mail-session/session/session.go:370-402 | so it is for the messages left in the folder |
| ImapMove.MoveOne | internal/mail-session/session/session.go:370-402 | one message is marked and expunged together with whatever else was marked |
| ImapMove.MoveEach | internal/imapd/backend/storeops.go:194-227 | the loop removes what one expunge of all the messages would; naming a message twice fails it |
| ImapMove.MoveAtomically | internal/imapd/backend/storeops.go:172-269 | a failure leaves queue and view alone; otherwise nothing was named twice, the folder is as after one expunge of everything moved, and the client is in step if and only if the marks agree |
| Search.IndexFirst | msgstore/search.go:129-137 | substring search finds the first occurrence, and nothing exactly when there is none |
| Search.SplitAtBlankLine | msgstore/search.go:129-137 | the header ends with the first CRLF blank line, without one with the first LF blank line, and without either it is the whole message |
| Search.CollectGrows | internal/imapd/backend/search.go:121-147 | collecting never drops a term and never lists one twice |
| Search.CollectCovers | internal/imapd/backend/search.go:121-147 | after collecting, every node of the tree has all its terms, and its need for content or headers, recorded |
| Search.PositionsPoint | internal/imapd/backend/search.go:74-116 | each folded term is found at the position of a term that folds to it |
| Search.ScanHolds | msgstore/search.go:44-100 | the scan has a result for exactly the requested messages that can be retrieved |
| Search.NodeAgrees | internal/imapd/backend/search.go:149-270 | one node's content tests through the index agree with testing the message itself |
| Search.IndexedIsDirect | internal/imapd/backend/search.go:149-270 | the indexed evaluation of any criteria tree equals the direct one, through every Not and Or |
| Search.UnindexedIsDirect | internal/imapd/backend/search.go:149-270 | without an index it still does, when no node needs content |
| Search.PrefetchDecides | internal/imapd/backend/search.go:74-116 | whatever was prefetched decides every listed message as the direct evaluation does |
| Search.SelectionMembers | internal/imapd/backend/search.go:29-65 | the result is the set of numbers of the messages the direct evaluation selects |
| Search.Collector.CollectTree | internal/imapd/backend/search.go:121-147 | the recursive collection updates the shared term lists as the function on values does |
| Search.MatchMessageContent | msgstore/search.go:78-100 | the matching loops mark each body and text term by whether the message contains it |
| Search.SearchContentStore | msgstore/search.go:44-70 | the scan visits the messages asked for, or the whole folder for an empty request |
| Search.PrefetchContent | internal/imapd/backend/search.go:74-116 | an index is missing exactly when nothing in the tree needs content |
| Search.SelectMatching | internal/imapd/backend/search.go:29-65 | the matching loop returns the numbers of exactly the hits |
| Search.RunSearch | internal/imapd/backend/search.go:29-65 | Search returns exactly the messages the direct evaluation selects, which the SearchLaws rows say key by key; it fails if and only if it needs content, the list is empty and the folder cannot be listed |
| SearchLaws.AnyLaw | internal/imapd/backend/search.go:149-270 | no criteria select every message |
| SearchLaws.SeqNumLaw | internal/imapd/backend/search.go:150-154 | a sequence set selects the messages at its positions |
| SearchLaws.UidLaw | internal/imapd/backend/search.go:156-160 | a UID set selects the messages with its UIDs |
| SearchLaws.FlagLaw | internal/imapd/backend/search.go:162-166 | FLAG selects the messages that have the flag |
| SearchLaws.NotFlagLaw | internal/imapd/backend/search.go:168-172 | NOT FLAG selects the messages that do not |
| SearchLaws.LargerLaw | internal/imapd/backend/search.go:174-176 | LARGER selects the messages above the size, and all of them for zero |
| SearchLaws.SmallerLaw | internal/imapd/backend/search.go:177-179 | SMALLER selects the messages below the size, and all of them for zero |
| SearchLaws.SinceLaw | internal/imapd/backend/search.go:181-192 | SINCE selects the messages with a date on that day or later |
| SearchLaws.BeforeLaw | internal/imapd/backend/search.go:181-192 | BEFORE selects the messages with a date on an earlier day |
| SearchLaws.SentSinceLaw | internal/imapd/backend/search.go:211-226 | SENTSINCE does the same by the Date header, when it can be read |
| SearchLaws.SentBeforeLaw | internal/imapd/backend/search.go:211-230 | so does SENTBEFORE |
| SearchLaws.HeaderLaw | internal/imapd/backend/search.go:232-240 | HEADER selects the messages whose folded field holds the folded text somewhere |
| SearchLaws.BodyLaw | internal/imapd/backend/search.go:243-248 | BODY selects the messages that hold the folded term after the first blank line |
| SearchLaws.TextLaw | internal/imapd/backend/search.go:249-254 | TEXT selects the messages that hold it anywhere |
| SearchLaws.NodeLaw | internal/imapd/backend/search.go:149-270 | a node selects the intersection of what its keys select one by one, without what any of its Nots selects, and within the union of the two sides of each of its Ors |
| SearchLaws.UidsOfPositions | internal/imapd/backend/search.go:29-65 | sequence numbers are positions counted from 1, and a UID SEARCH yields the UIDs of the messages at those positions |
| TomlPatch.EntryIsClean | internal/admin/tomlpatch.go:164-181 | the line written for a key is read back as that key and value, and as no header |
| TomlPatch.OneKeyPerLine | internal/admin/tomlpatch.go:170-181 | a line sets at most one bare key |
| TomlPatch.PatchFrames | internal/admin/tomlpatch.go:19-160 | a patch writes exactly one line, in place of or between lines it keeps, in all four cases |
| TomlPatch.FrameLocates | internal/admin/configedit.go:185-224 | after a patch the reader finds the line the patch wrote |
| TomlPatch.ReadAfterPatch | internal/admin/tomlpatch.go:19-160 | reading a key just patched returns the value |
| TomlPatch.ReadAfterPatchIff | internal/admin/tomlpatch.go:19-160 | a non-empty value reads back if and only if it is trimmed and newline-free |
| TomlPatch.ReadIsLineValue | internal/admin/configedit.go:185-224 | whatever is read could be written back on one line |
| TomlPatch.QuotedValueIff | internal/admin/tomlpatch.go:7-11 | quoting can be undone, and a quoted string survives a patch if and only if it holds no newline |
| TomlPatch.PlaceAgreesWithReader | internal/admin/tomlpatch.go:19-160 | the patcher finds a key exactly where the reader does |
| TomlPatch.LastPatchWins | internal/admin/tomlpatch.go:19-160 | two patches of one key equal the last alone, character for character |
| TomlPatch.RemoveUnsetsIff | internal/admin/tomlpatch.go:19-160 | removing a key unsets it if and only if its table did not set it again further down |
| TomlPatch.PatchKeepsOthers | internal/admin/tomlpatch.go:19-160 | every other key of every section reads as before the patch, whether it sets its key or removes it |
| TomlPatch.ReadSectionValue | internal/admin/configedit.go:185-224 | the reading loops compute the specified value; what that value is, the TomlRead rows say |
| TomlRead.TrimSpaceIff | internal/admin/configedit.go:185-224 | trimming leaves the one text that the line surrounds with white space |
| TomlRead.OpensTableIff | internal/admin/tomlpatch.go:164-168 | a line is a section header if and only if it is white space, a bracket and anything |
| TomlRead.MatchesIff | internal/admin/tomlpatch.go:170-181 | a line matches a key if and only if it is white space, the key, blanks, an equals sign and anything, and the key neither starts a comment nor with white space |
| TomlRead.ValueAfterEquals | internal/admin/configedit.go:216-220 | the value of any line is the text after its first equals sign, trimmed |
| TomlRead.NoEqualsNoValue | internal/admin/configedit.go:216-220 | a line without an equals sign has no value |
| TomlRead.ReadFinds | internal/admin/configedit.go:185-224 | when a line of the section is the first there to set the key, the value read is the text after its equals sign, trimmed; the section is the lines from its first header to the next bracket |
| TomlRead.ReadMissing | internal/admin/configedit.go:185-224 | when no line of the section sets the key, nothing is read |
| TomlLines.SettingKeepsLines | internal/admin/tomlpatch.go:19-160 | setting a key keeps every line with anything on it, comments included, in its place: the new line goes over the one that set the key or between two others, after the header where the section is new |
| TomlLines.RemovingKeepsLines | internal/admin/tomlpatch.go:19-160 | removing a key takes away the line that sets it and no other, or nothing |
| TomlPatch.EditSection | internal/admin/tomlpatch.go:72-105 | the copying loop replaces, deletes or inserts one line and keeps all others |
| TomlPatch.PatchSection | internal/admin/tomlpatch.go:19-106 | the patching loops compute the specified text for a named section |
| TomlPatch.PatchTopLevel | internal/admin/tomlpatch.go:110-160 | the same for top-level keys |
| ConnFork.StepKeepsInv | internal/connfork/connfork.go:272-574 | every step keeps the slots and tarpit holds conserved and the log of events in agreement with the connections |
| ConnFork.DispatcherIsSafe | internal/connfork/connfork.go:272-574 | in every interleaving: slots in use are those held and at most MaxConns, tarpit holds are within their budget, each slot is released exactly once, and each end is reported once and after its start |
| ConnFork.GivingBackNeverBlocks | internal/connfork/connfork.go:311-315 | a step that gives a slot back is never blocked |
| ConnFork.AcceptorWaitsIff | internal/connfork/connfork.go:299-309 | an idle acceptor is kept waiting if and only if every slot is in use |
| ConnLives.ConnectionsLive | internal/connfork/connfork.go:457-574 | in every run each connection is denied, not startable or served, step by step in this order, and its next step is possible exactly when it continues one of these lives |
| ConnLives.ReportsFollowMoves | internal/connfork/connfork.go:457-574 | start, end and release are reported of a connection exactly when it took the step that reports them |
| ConnLives.DeniedIsNeverServed | internal/connfork/connfork.go:477-480 | a connection is handed to the tarpit if and only if the gate denied it; it then never gets a handler and only gives its slot back; a handler is reported only after the gate allowed and the start succeeded |
| ConnLives.AllowedCanStart | internal/connfork/connfork.go:457-530 | right after the gate has allowed it a connection can be started |
| ConnLives.HoldsLive | internal/connfork/connfork.go:392-450 | a denied connection is closed at once, turned away exactly when the budget is full, or held while there is room and then closed |
| ConnLives.AcceptorsLive | internal/connfork/connfork.go:272-309 | an acceptor accepts again after each connection, and stops only when cancelled or when an accept fails |
| SmSession.StepKeepsInv | internal/smclient/session.go:178-327 | every step of every call keeps the recovery lock exclusive and the tokens' histories apart |
| SmSession.RecoveryIsSafe | internal/smclient/session.go:178-327 | in every interleaving, with logins and closes at any time: a token is replaced by at most one committed re-login, no data RPC uses a token whose continuity hook failed, a write sends its RPC at most once, and a read never retries with a token it recovered from |
| SmSession.GoneStaysGone | internal/smclient/session.go:178-233 | a token the session no longer holds never becomes current again |
| SmSession.HoldsTokenIff | internal/smclient/session.go:103-233 | over every run the session holds a token if and only if the last login, commit, close or refused re-login was a login or a commit |
| SmSession.RecoveredHoldsTokenIff | internal/smclient/session.go:172-195 | when recovery returns nil the failed token is no longer current; another one is held if and only if no close and no refused re-login came after the last login or commit |
| SmSession.RecoveredWithoutToken | internal/smclient/session.go:178-210 | from the start, any two calls can be scheduled so that the second is told it recovered while the session is logged out |
| SmSession.CheckDecides | internal/smclient/session.go:178-197 | a call in recovery logs in again exactly when the token it failed with is still current and the credential was kept; a changed token ends recovery, and a missing credential ends the call |
| SmSession.FailureDecides | internal/smclient/session.go:238-316 | a failed write, and a read that lost its session, go to recover; a read that found the manager unavailable only retries |
| SmSession.RecoveryDecides | internal/smclient/session.go:178-233 | a refused re-login and a failed continuity hook end the call, read or write; after a committed one a read retries and a write is over; after a transient failure both go on; other calls in between change nothing about it |
| SmSession.DoneIsOver | internal/smclient/session.go:238-327 | a call that is over takes no further step |
| SmRetry.WaitsFitIff | internal/smclient/session.go:39-45 | n waits of the doubling, capped backoff fit into a deadline if and only if n is at most the closed form |
| SmRetry.Read | internal/smclient/session.go:238-288 | the loop ends; it sends one RPC to begin with and one in each round that finds a token, at most two more than the waits that fit into the deadline; it returns the last answer when that needs no retry, and every earlier answer asked for one; it stops as soon as recovery is refused for a lost session, the caller gives up, or the next wait would outlast the deadline |
| SmRetry.DefaultReadBound | internal/smclient/session.go:39-45 | with the default deadline that is fourteen RPCs |
| PeerGate.SizeIsBounded | internal/peergate/peergate.go:443-482 | after any operations the cache holds at most twice its size |
| PeerGate.HitWasInserted | internal/peergate/peergate.go:443-482 | any hit is a live verdict inserted for that key since it was last forgotten |
| PeerGate.PutKeepsDisjointIff | internal/peergate/peergate.go:464-473 | an insert keeps the generations key-disjoint if and only if it does not clash with an entry left behind |
| PeerGate.CarefulIsDisjoint | internal/peergate/peergate.go:443-482 | without clashes no key is in both generations |
| PeerGate.CarefulHitIsNewest | internal/peergate/peergate.go:274-339 | without clashes every hit is what a map that never evicts would answer, whatever the clock does |
| PeerGate.BringsBackIff | internal/peergate/peergate.go:443-473 | an insert can bring an older verdict back if and only if it clashes with an entry that expires later than the new one; that entry is what comes back |
| PeerGate.HitIsNewest | internal/peergate/peergate.go:443-482 | with a clock that does not go back, as long as no insert leaves such an entry behind, every hit is what a map that never evicts would answer |
| PeerGate.HarmfulHitsOlder | internal/peergate/peergate.go:443-473 | after any run an insert that does leave one behind is followed by a hit that such a map would not give |
| PeerGate.ForgottenIsMissed | internal/peergate/peergate.go:404-410 | after a removal the key is missed until it is inserted again |
| PeerGate.SurvivesMaxInserts | internal/peergate/peergate.go:464-473 | an entry survives as many later inserts as the cache is large, unless it expires, is forgotten or is replaced |
| PeerGate.CacheKeyInjective | internal/peergate/peergate.go:395-400 | keys differ for different addresses and for the two listener roles |
| PeerGate.Gate.Get | internal/peergate/peergate.go:443-462 | the lookup prefers the newer generation, drops an expired entry, and without clashes a miss leaves the key nowhere |
| PeerGate.Gate.Put | internal/peergate/peergate.go:464-473 | an insert rolls the generations when the newer one is full |
| PeerGate.Gate.CheckPeer | internal/peergate/peergate.go:274-339 | an allowed peer passes untouched; a hit is the newest verdict; an error is not cached; a ban or shadow ban is found until the deny lifetime has passed and missed from then on, any other answer until the allow lifetime has; checks one at a time never clash |
| PeerGate.Gate.Forget | internal/peergate/peergate.go:404-410 | both roles of the address are forgotten and no other address is affected |
| ConnRate.SizeIsBounded | internal/peergate/connrate.go:72-128 | the generations are key-disjoint and hold at most twice the configured size |
| ConnRate.ReportHasCause | internal/peergate/connrate.go:72-107 | a report means at least threshold accepts of that key, this one included, within less than a window |
| ConnRate.ReportsArePaidFor | internal/peergate/connrate.go:72-128 | reports times threshold, plus what is pending, never exceed the key's accepts, across any rolls |
| ConnRate.FewKeysIsPlain | internal/peergate/connrate.go:72-128 | while no more keys were seen than fit, the counter is the plain fixed-window counter of each key |
| ConnRate.FrequentIsPlain | internal/peergate/connrate.go:109-128 | a key that is never absent for as many accepts as a generation holds is counted as if nothing were evicted, which is what promotion is for |
| ConnRate.ReportsAtThreshold | internal/peergate/connrate.go:72-107 | as long as nothing of its key was evicted, an accept is reported if and only if it brings the accepts of its window to the threshold |
| ConnRate.RateCounter.Observe | internal/peergate/connrate.go:72-107 | one accept updates both generations and reports as the function on values does |
| ConnRate.RateCounter.Lookup | internal/peergate/connrate.go:112-128 | an entry of the older generation moves to the newer one exactly when there is room |
| LimitStore.OthersUntouched | auth/domain/limitstore.go:136-171 | a write to one key drops other keys only when they have expired |
| LimitStore.MemLimitStore.Prune | auth/domain/limitstore.go:136-143 | the sweeping loop drops exactly the expired entries |
| LimitStore.MemLimitStore.Exists | auth/domain/limitstore.go:120-162 | a key exists while it has not expired, and an expired one is dropped |
| LimitStore.MemLimitStore.Incr | auth/domain/limitstore.go:145-156 | a live counter grows by one and keeps its expiry; otherwise a new one starts |
| LimitStore.MemLimitStore.Set | auth/domain/limitstore.go:164-171 | a marker lives for its lifetime from now |
| AuthLimiter.IpKeysAreOwn | auth/domain/ratelimit.go:34-39 | an address's two keys are used by no other address and by no pair |
| AuthLimiter.PairIsInjective | auth/domain/ratelimit.go:97-99 | pairs have different keys when no address holds the separator |
| AuthLimiter.SeparatorCollides | auth/domain/ratelimit.go:97-99 | an address that holds it shares its key with another pair |
| AuthLimiter.RunFollows | auth/domain/ratelimit.go:107-184 | after any attempts the address's counter and lock are those that the times of its failures call for |
| AuthLimiter.SpanOfBound | auth/domain/ratelimit.go:107-167 | one failure more than the bound spans at least a window |
| AuthLimiter.FailuresPerWindow | auth/domain/router.go:114-136 | in every half-open interval of one window at most 2*max-2 failures of one address (one, for a limit of one) reach the agent, whatever else is tried; never more than 2*max-1 |
| AuthLimiter.BoundIsReached | auth/domain/ratelimit.go:107-167 | for every limit and every window of more than one clock tick, some attempts attain the bound |
| AuthLimiter.NoAddressNoLimit | auth/domain/ratelimit.go:107-145 | without an address nothing is refused or stored |
| AuthLimiter.FailureLocksPairIff | auth/domain/ratelimit.go:135-167 | a failure locks its pair, for exactly the lockout, if and only if it reaches the pair's limit |
| AuthLimiter.SuccessStartsOver | auth/domain/ratelimit.go:169-184 | after a success the pair is unlocked and its next failure is its first |
| AuthLimiter.PairIsRefused | auth/domain/ratelimit.go:107-167 | as many failures of one pair as its limit, within one window, all reach the agent when the address has no limit of its own or a higher one; from the last of them on the pair is refused until the lockout has passed, and no longer |
| AuthLimiter.LockCannotBeCleared | auth/domain/ratelimit.go:107-184 | whoever else logs in or fails meanwhile, from addresses without the separator, a locked pair stays refused until its lock ends |
| AuthLimiter.Router.Authenticate | auth/domain/router.go:114-136 | the agent is asked exactly when no lock is in force, and the outcome is recorded |
| AuthLimiter.Router.IsLimited | auth/domain/ratelimit.go:107-130 | the pair's lock is asked before the address's |
| AuthLimiter.Router.RecordFailure | auth/domain/ratelimit.go:135-145 | a failure counts for the pair and for the address |
| AuthLimiter.Router.Count | auth/domain/ratelimit.go:149-167 | the lock is set once the counter reaches its limit |
| AuthLimiter.Router.RecordSuccess | auth/domain/ratelimit.go:175-184 | a success clears the pair and leaves the address alone |
| OidcKeys.NeverTwoCurrent | internal/auth/authoidc/store.go:258-321 | over every run a domain never has two current keys |
| OidcKeys.LosesCurrentIff | internal/auth/authoidc/store.go:258-321 | an operation takes a domain's current key away if and only if it revokes it |
| OidcKeys.AlwaysOneCurrent | internal/auth/authoidc/store.go:258-321 | once a domain has a current key it has exactly one until that one is revoked |
| OidcKeys.TokenFindsItsKey | internal/auth/authoidc/server.go:591-628 | a token whose lifetime is within the retention finds its own key published until it expires, unless that key is revoked or overwritten |
| OidcKeys.RevokedStaysOut | internal/auth/authoidc/store.go:295-306 | a revoked key is not published from then on |
| OidcKeys.RevocationIsFinal | internal/auth/authoidc/store.go:295-306 | over every run that begins with its revocation, a key, current or retiring, is not published again |
| OidcKeys.RetiredUntilRetention | internal/auth/authoidc/store.go:274-321 | over every run that begins with the rotation that retires it, a key is published if and only if the retention has not passed |
| OidcKeys.SweepIsUnseen | internal/auth/authoidc/store.go:310-321 | a sweep changes nothing that is published from then on, and leaves nothing that is not |
| OidcKeys.InsertReplacesRetiring | internal/auth/authoidc/store.go:258-269 | inserting under a retiring key's name takes that key away |
| OidcKeys.KeyStore.InsertSigningKey | internal/auth/authoidc/store.go:258-269 | an insert fails exactly when the domain has a current key |
| OidcKeys.KeyStore.RotateSigningKey | internal/auth/authoidc/store.go:274-291 | a rotation retires every current key of the domain with one expiry and installs the new one, or fails on a known name |
| OidcKeys.KeyStore.RevokeSigningKey | internal/auth/authoidc/store.go:295-306 | a revoked key expires in the past; an unknown one is an error |
| OidcKeys.KeyStore.SweepExpiredSigningKeys | internal/auth/authoidc/store.go:310-321 | a sweep removes exactly the lapsed retiring keys and hands them back |
| OidcKeys.KeyStore.CurrentKeyFor | internal/auth/authoidc/server.go:591-602 | the signing key is the domain's only current key, and missing exactly when there is none |
| OidcKeys.KeyStore.ActivePublicKeysFor | internal/auth/authoidc/server.go:608-628 | the published set is exactly the domain's current and unexpired retiring keys |
| IdAlloc.CounterRoundTrip | auth/identity/counter.go:45-72 | the counter file reads back the 32-bit number written to it |
| IdAlloc.Counter.AllocateId | auth/identity/counter.go:27-75 | the floor from an empty file, the excluded band skipped, the successor written, an unreadable file left alone |
| IdAlloc.NthIncreases | auth/identity/counter.go:45-72 | the ids in the order they are handed out increase and are allocatable |
| IdAlloc.NthCovers | internal/idrange/idrange.go:42-44 | every allocatable id has its turn |
| IdAlloc.NextIsAllocatableIff | auth/identity/counter.go:45-72 | the next id is allocatable if and only if the counter does not stand at zero, that is, while ids are left |
| IdAlloc.AllocationIsSafe | auth/identity/alloc.go:41-187 | in every interleaving of allocations, removals, adoptions and crashes: ids strictly increase, are allocatable, are never shared between uids and gids, and a removed or lost one belongs to nobody |
| IdAlloc.LostNeverReturns | auth/identity/alloc.go:98-187 | an id let go is never recorded by an allocation again |
| IdAlloc.IdsAreAccounted | auth/identity/alloc.go:41-187 | over every run an id was handed out if and only if it is recorded, about to be recorded, or was let go by a removal or a crash, and it is only one of these |
| IdAlloc.EntryIsKept | auth/identity/alloc.go:41-167 | a recorded id stays as it is until it is removed |
| IdAlloc.OneTooMany | auth/identity/counter.go:64-72 | after the last id the allocator hands out zero |
| IdAlloc.Manager.AllocateAt | auth/identity/alloc.go:41-64 | an existing entry is handed back without touching the counter; otherwise a new id is recorded |
| IdAlloc.Manager.SetAt | auth/identity/alloc.go:70-92 | an id is adopted exactly when it is allocatable and no other is recorded |
| IdAlloc.Manager.RemoveAt | auth/identity/alloc.go:98-114 | exactly the one entry goes |
| KeyringEntries.NormalizedCompletes | auth/keyring/keyring.go:120-134 | filling in the defaults keeps both keys, the algorithm, the purpose and every field that was set, and leaves no field unset |
| KeyringEntries.RotationUsesNewIff | auth/keyring/keyring.go:108-117 | rotation appends the new key as it was handed in, changes nothing but statuses, marks every encryption key that was in use as rotated, and puts the new key in use if and only if it is an encryption key |
| KeyringEntries.AppendKeepsInUse | auth/keyring/keyring.go:95-102 | an appended entry is in use only when no key was |
| KeyringEntries.Keyring.ActiveEncryptionKey | auth/keyring/keyring.go:95-102 | the first active encryption entry, or none |
| KeyringEntries.Keyring.RotateEncryptionKey | auth/keyring/keyring.go:108-117 | the loop rotates in place and appends the new entry as active |
| SealedKeyring.UnsealWithPassword | auth/keyring/seal.go:265-290 | the loop opens with the first passphrase slot that unwraps, and tells a wrong password from a missing slot |
| SealedKeyring.OpensIff | auth/keyring/seal.go:265-414 | any sealed value is malformed for a password exactly when its version, document or passphrase slots are missing, and for an escrow key exactly when its version or document is; whatever it opens to is its document, by a slot that wraps the document's key for that password or escrow key |
| SealedKeyring.ReplaceInto | auth/keyring/seal.go:317-327 | the new slot replaces every passphrase slot and no other |
| SealedKeyring.AddEscrowSlot | auth/keyring/seal.go:362-387 | the new escrow slot replaces its domain's and no other |
| SealedKeyring.OpenWithEscrow | auth/keyring/seal.go:392-414 | the loop opens with the first escrow slot that the key pair opens |
| SealedKeyring.EscrowIsAdded | auth/keyring/seal.go:375-385 | the slot table keeps one slot for each domain |
| SealedKeyring.KeyringStaysOpenable | auth/keyring/seal.go:225-414 | after any operations, with right or wrong passwords, exactly the latest password and exactly the escrow keys in the table open a keyring with every entry ever added in order, and the document version counts them |
| SealedKeyring.EntriesOnlyGrow | auth/keyring/seal.go:332-340 | no later operation drops or reorders an entry |
| SealedKeyring.RollbackIsRefused | auth/keyring/seal.go:87-141 | an older document under a newer envelope opens for nobody |
| SealedKeyring.RenamingSlots | auth/keyring/seal.go:181-219 | after any operations, the renamed passphrase slot opens for no password, while renaming an escrow slot changes nothing for anyone |

## Left out

- File, flock, rename and fsync mechanics: a lock is an atomic step and a file is a value; a crash between truncating and writing the id counter is not covered.
- Text is a sequence of characters, and white space is the set of Go's `unicode.IsSpace`; encodings and Unicode folding are not modelled (case folding in SEARCH is a parameter).
- Maildir folders are modelled one at a time; new/, folder creation, deletion and renaming, and flags other than the one for deletion are not.
- `MaildirStore.Folder`: the list on disk is the value the file denotes; `UidRuns.LoadReadsBack` relates the two for writable snapshots.
- The content-search RPC is taken to behave like the in-process scan; message dates and header parsing in SEARCH are parameters.
- ImapExpunge.Session.Move: a move within one folder is not modelled; COPY is left out.
- ImapExpunge.Session.Expunge: nothing else arrives in the folder between the expunge and the new listing.
- The validation of configuration values before they are patched, and TOML beyond what the line-based reader understands.
- The gate's verdict policy when the session manager fails, denial statistics and log lines of the dispatcher; the contents of a handler's environment.
- Session.Logout, the recovery metrics, and the session-manager client's write loop bound.
- SmRetry.Read: a timer and a backoff that fire at the same instant are resolved in favour of another round.
- PeerGate.Gate.CheckPeer: overlapping checks of one peer are covered by the cache lemmas only; allowlist matching is a parameter and reporting is left out.
- ConnRate.RateCounter.Observe: the defaults of the configuration and the disabled counter are left out.
- AuthLimiter.FailuresPerWindow: attempts are one at a time, all store calls of a check happen at one instant and all those of a record at another, and store errors do not occur.
- The Redis limit store and the SQLite key store.
- OidcKeys.TokenFindsItsKey: a domain and a key identifier are a pair instead of one joined string, signing happens at the instant the current key is read, and key files and the key cache are left out.
- IdAlloc.AllocationIsSafe: ids adopted from an older layout bypass the counter and are outside the distinctness claim.
- Cryptography, hashing and JSON are ideal: a ciphertext opens for exactly its key and associated data, stretched passwords and fingerprints do not collide, and a document decodes to what was encoded; device slots and the length check of recovery keys are left out.
- Configuration merging, forwarding, delivery, DNS, HTTP handlers, validators and address splitting, which would add only short single-function facts.
