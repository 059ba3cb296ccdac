# Gensokyo: proofs about its stateful core

Gensokyo bridges the OneBot protocol to the QQ bot API through a vendored copy of discordgo. Most of it is
plumbing; a small part keeps several structures in agreement while they are changed step by step, or guarantees
something only over whole runs. This project models that part in Dafny and proves what it is for.

- **Id map** (`RowId`, `Keys`, `IdSingles`, `IdPairs`, `IdMapService`, `IdPairRuns`; on top of `Decimal` and
  `Text`). One bolt bucket holds ids and their rows, rows and their ids, the row counter, and composite `a:b` keys
  that map a real pair to a virtual pair and back. A key is a value of the datatype `Keys.Key`; `KeyTextInjective`
  shows that the texts the code stores under are as good as those values. The MD5 digest is a function parameter.
  `db.Update` commits everything or nothing.
- **State cache** (`CacheLists`, `CacheView`, `CacheSteps`, `CacheRuns`, `CacheEffects`, `Cache`, `Messages`).
  Guilds, channels, threads and members are listed inside mutable guild objects and indexed by id in three maps
  that must point to the very same objects, while events overwrite those objects in place. `CacheView.Indexed` is
  the invariant (what is listed is indexed), `CacheView.Exact` its converse.
- **Permissions** (`Permissions`): the mask loops of `memberPermissions` against a precedence order per bit, and
  the role colour, whose in-place sort must not change anybody's permissions.
- **Rate limits and retries** (`RateLimit`, `Rest`, `Upload`): locking, waiting for and releasing a bucket over an
  abstract clock, the retry recursion that hands the lock back and takes it again, and the sliding window of the
  upload handlers.
- **Send handlers** (`Send`): the recursion over message types, which runs on two global maps and counts up before
  it counts down.
- **Events and gateway** (`Events`, `Gateway`, `GatewaySession`): handler tables with synchronous dispatch, and the
  life cycle of the websocket connection. Open and CloseWithCode hold the session lock, listeners process packets
  without it, so a step is one region between two accesses to what they share: a run is any interleaving of the
  regions of Open, of CloseWithCode and of all listeners, those of closed channels too.

Where the source changes state, a class holds the source's fields and its methods are proved against specification
functions; runs are sequences of those steps, and the run theorems are lemmas by induction.

## What the proofs found

- Counter-mode `StoreID` does not look whether the next row is free (`IdSingles.StoreCountedExactly`): an id bound
  to exactly that row is lost to the next id stored (`BindAheadOfCounterLoses`). The very first id can be lost that
  way too (`FirstIdCanBeLost`).
- `StoreIDPro` does not look whether the virtual pair is free, and two pairs whose digests agree in nine digits
  orphan each other (`IdPairs.StoreProCanOrphan`). The users 1939 and 6587 do, in any group (`TwoUsersOrphan`).
- `UpdateKeysWithNewID` does not look whether the new names are free. The finished rename keeps every key its
  partner's partner exactly when the taken names fit: the partner of each is a new name itself, or is renamed to be
  its partner (`IdPairs.RenameExactly`). With g:1 and p:1 partners and h:1 and q:1 partners, renaming g to h leaves
  q:1 pointing at a key that points elsewhere (`RenameCanOrphan`). Where every key is its partner's partner the
  function fails exactly when the ids differ and two different keys of the group are each other's partner
  (`RenameFailsExactly`). A key that is its own partner is not renamed away: the old name stays, as the new one's
  partner (`RenamedExactly`).
- `UpdateKeysWithNewID` iterates a Go map. The order has a say in a rename that does not fail exactly when a new
  name is contended: another key of the group has it as its partner, and replacing the id changes what the key that
  takes the name leaves there (`OrderIrrelevantExactly`). With g:3 and h:2 partners and g:2 its own, renaming g to
  h leaves one of two buckets (`OrderCanMatter`).
- Asked again for a stored pair, `StoreIDPro` scans two numbers out of the partner's text. The answer names the
  partner exactly when that is made of two decimal forms (`StoreProAnswersExactly`). After (a, b) is stored, asking
  for its virtual pair answers (0, 0) (`StoreProAnswersZeros`). Discord's ids are decimal themselves: over every
  run on such ids each stored pair, real or virtual, gets exactly its partner back
  (`IdPairRuns.DecimalPairAnswered`). Whatever the ids, a stored pair that is not made of two decimal forms gets it
  after any run whose renames keep virtual pairs virtual (`StoredPairAnswered`), and any pair after a run that
  spares it (`StoredRun`).
- `SimplifiedStoreID` does not look whether the id has a row already: asked three times it gives two rows and then
  an error (`IdSingles.SimplifiedRepeats`).
- `CheckValue` disowns a row that lost a leading zero (`RowId.CheckRecognises`); the digest of the text 158 is such
  a one (`LeadingZeroDisowned`).
- The comment in the rate limiter says a global limit blocks all buckets until its deadline. A bucket that waits
  for its own reset returns that wait first, so it can be granted before the deadline
  (`RateLimit.GlobalRespectedExactly`): one whose reset is 10 ms away is granted 990 ms before a deadline one
  second away (`GrantedEarly`). The model follows the code.
- The send recursion comes back exactly when the id does not convert to a number, some lookup succeeds, or the
  entry it writes is one of those it reads, which is so for every id whose text is the decimal form of its number
  and for an echo that names the entry (`Send.OtherwiseDiverges`). A private send to `007` never comes back
  (`LeadingZerosDiverge`), nor does a send with neither id (`NoIdsDiverge`).
- A group send to an unknown id whose guild id cannot be read leaves the last guess in the type map
  (`Send.UnknownTriesFive`).
- `Open` reads two packets while it holds the session lock, and a reconnect request or a heartbeat acknowledgement
  among them takes that lock again, so `Open` never returns (`Gateway.StuckExactly`), and neither does any later
  `Open` or `Close` (`OpenCanJam`, a hello followed by op 7).
- `listen` looks at its channel and then processes the packet without a lock. After a `Close`, also after a new
  `Open`, a listener still processes the one packet it holds, and no other (`Gateway.AtMostTheOneHeld`). A dispatch
  held over a `Close` changes the session's sequence after the `Close` is through (`LateDispatch`). An op 1 or op 9
  processed while the session has no connection calls a method on nil and panics; that takes a listener whose
  channel was closed under it (`PanicsOnlyOnceClosed`), and `LateAnswerPanics` is a run that gets there.
- `GuildRemove` leaves the index entries of the guild's channels, threads and members behind
  (`CacheView.GuildDropExactly`; `CacheRuns.RemovedGuildLeavesChannel` is a run that does), and a READY that
  carries threads leaves them out of the index (`CacheSteps.ReadyIndexedExactly`,
  `CacheRuns.ReadyThreadNotIndexed`).
- A thread sync with a thread that has the id of one that stays breaks the index (`CacheSteps.SyncIndexedExactly`;
  `CacheRuns.ClashingSync` is one).

## Assumptions

- Real ids contain no `:` and are neither `currentRow` nor start with `row-`, as otherwise two keys can have one
  text (`Keys.TextsCollide`).
- A channel id never moves between lists or guilds: one function `home` from ids to lists is fixed for a whole run.
  Ids within one list of an event are distinct. A channel delete event names the type and the guild the channel is
  cached under. Threads of a READY are new objects. Threads have thread metadata (the source dereferences it
  unchecked).
- `MaxMessageCount` is not negative; the source would panic.
- The clock does not go back.

## Model

| member | source | states |
|---|---|---|
| RowId.GenerateRowID | idmap/service.go:58-89 | the loop over the digest yields the number formed by its first decimal digits, or one of the two errors |
| RowId.TenDigitsExtendNine | idmap/service.go:58-89 | the ten-digit row divided by ten is the nine-digit row of the same digest, and both stay below ten to their length |
| RowId.CheckRecognises | idmap/service.go:92-105 | CheckValue accepts a generated row exactly when the first digest digit is not zero or the row is 0 |
| RowId.LeadingZeroDisowned | idmap/service.go:92-105 | a 32-digit hexadecimal digest whose nine-digit row CheckValue rejects |
| Decimal.ParseFormat | handlers/message_parser.go:589-601 | a formatted int64 reads back as itself |
| Decimal.ParseElse | handlers/message_parser.go:589-601 | every other text: 0 with an error for no digits or other characters, the nearest bound with an error beyond int64 |
| Keys.RowRoundTrip | idmap/service.go:153-160 | eight big-endian bytes read back as the row they were written from, negative rows included |
| Keys.BytesOfOne | idmap/service.go:153-160 | the most significant byte comes first |
| Keys.KeyTextInjective | idmap/service.go:156-163 | two different genuine keys never have the same text in the bucket |
| Keys.TextsCollide | idmap/service.go:156-163 | why ids must be genuine for that: concrete keys that share a text |
| Keys.GroupPrefix | idmap/service.go:1119-1121 | the prefix `id:` selects exactly the composite keys of that group |
| Keys.ScanFormattedPair | idmap/service.go:261-267 | scanning a formatted virtual pair gives the two numbers back |
| Keys.ScanAlone | idmap/service.go:261-267 | a number without a colon behind it fills the first target only |
| Keys.ScanFirstOnly | idmap/service.go:261-267 | and so does one without a number behind the colon |
| Keys.ScanNeither | idmap/service.go:261-267 | a text that begins with no number fills neither |
| IdMapService.IdMap.StoreID | idmap/service.go:108-169 | the transaction leaves the bucket and gives the row of the specification step, whose answers the next rows state |
| IdSingles.StoreAnswers | idmap/service.go:108-169 | in either mode the answer is the row the id has afterwards, that row gives the id back, and no other id or row moves |
| IdSingles.StoreAnswersWhat | idmap/service.go:115-163 | a known id answers with its own row and writes nothing; a new one gets the counter plus one, wrapping at int64, or a hashed row |
| IdSingles.FreshRowExactly | idmap/service.go:130-150 | a hashed row is the nine-digit one if free, else the ten-digit one if free; each error exactly when |
| IdMapService.RepeatedStore | idmap/service.go:108-169 | over every run in either mode, storing an id again answers where the last rebind took it, or its first row without one, and writes nothing |
| IdSingles.SimplifiedAnswers | idmap/service.go:171-206 | a simplified store binds one more free row to the id and changes nothing else |
| IdSingles.SimplifiedRepeats | idmap/service.go:171-206 | so three calls for one id in an empty bucket give the nine-digit row, the ten-digit row and an error |
| IdSingles.UpdateAnswers | idmap/service.go:661-696 | a rebind fails exactly when the old row is unknown, or else the new one taken, and then changes nothing |
| IdMapService.IdMap.SimplifiedStoreID | idmap/service.go:171-206 | writes only the reverse key of a fresh row |
| IdMapService.IdMap.UpdateVirtualValue | idmap/service.go:661-696 | the rebind step, with its two errors leaving the bucket alone |
| IdMapService.IdMap.StoreIDPro | idmap/service.go:251-294 | returns the stored pair or links a new virtual pair in both directions |
| IdMapService.IdMap.UpdateVirtualValuePro | idmap/service.go:1013-1046 | the pair rebind step, failing without a change |
| IdMapService.IdMap.UpdateKeysWithNewID | idmap/service.go:1139-1193 | the bucket is what the rounds make of it in the order the map yields the keys; unless a new name is contended that is the one renamed bucket, whatever the order; on an involution it fails exactly when the ids differ and two different keys of the group are each other's partner, and then changes nothing |
| IdMapService.IdMap.FindSubKeysById | idmap/service.go:1110-1136 | the cursor walk lists the second halves of exactly the group's keys, each once, in key order |
| IdSingles.NoSharedRow | idmap/service.go:108-169 | with reversible rows no two ids share one |
| IdSingles.StoreHashedKeepsReversible | idmap/service.go:130-163 | a hashed store keeps every id the owner of its row |
| IdSingles.SimplifiedKeepsReversible | idmap/service.go:171-206 | reverse-only aliases do not disturb that |
| IdSingles.UpdateKeepsReversible | idmap/service.go:661-696 | nor does a rebind, even of an alias |
| IdSingles.UpdateMoves | idmap/service.go:661-696 | a successful rebind moves one id to the new row and touches no other id or row |
| IdSingles.StoreCountedExactly | idmap/service.go:121-129 | a counted store keeps rows reversible if and only if nobody holds the next row yet |
| IdSingles.StoreCountedKeepsClear | idmap/service.go:121-129 | counted stores below the top keep stored rows clear of those still to be counted |
| IdSingles.UpdateKeepsClear | idmap/service.go:661-696 | so does a bind at or below the counter or above the top |
| IdSingles.BindAheadOfCounterLoses | idmap/service.go:121-129 | a bind to the next counted row followed by a store gives two ids one row |
| IdSingles.FirstIdCanBeLost | idmap/service.go:108-169 | from an empty bucket: store, bind to row 2, store another id, and both ids have row 2, which gives back only the second |
| IdPairs.StoreProExactly | idmap/service.go:269-288 | storing a new pair keeps the partner relation an involution if and only if the virtual pair drawn is free or is its own partner |
| IdPairs.StoreProCanOrphan | idmap/service.go:269-288 | two pairs that draw the same virtual pair leave an orphan |
| IdPairs.TwoUsersOrphan | idmap/service.go:251-294 | the digests of 1939 and 6587 draw the same row, so in any group the second of these users orphans the first |
| IdPairs.StoreProReturnsPartner | idmap/service.go:261-267 | a stored pair whose partner is a virtual pair gets that pair back |
| IdPairs.StoreProRepeats | idmap/service.go:251-294 | storing a new pair again at once returns the same pair and changes nothing |
| IdPairs.NewPairFound | idmap/service.go:269-288 | a new pair is found under its virtual pair and the virtual pair under it, halves in order |
| IdPairs.FirstPair | idmap/service.go:251-294 | that for the group 158 and the user 1939, with their digests |
| IdPairs.StoreProAnswersExactly | idmap/service.go:261-267 | for a stored pair the answer names its partner if and only if the partner is made of two canonical int64 texts; nothing is written |
| IdPairs.StoreProAnswersZeros | idmap/service.go:251-294 | after (a, b) is stored, whatever its virtual pair, asking for that pair answers (0, 0) |
| IdPairRuns.OneSideRun | idmap/service.go:251-294 | over every run whose renames keep virtual pairs virtual, one of any two partners is a virtual pair |
| IdPairRuns.StoredPairAnswered | idmap/service.go:251-294 | at the end of every such run a stored pair that is not itself two decimal forms gets exactly its partner back, and nothing is written |
| IdPairRuns.DecimalPairAnswered | idmap/service.go:251-294 | over every run on ids that are canonical int64 texts, as Discord's are, every stored pair, real or virtual, gets exactly its partner back at the end, and nothing is written |
| IdPairRuns.StoredRun | idmap/service.go:251-294 | over every run that spares a stored pair, whatever it looks like, asking again gives its partner of then; if the partner was left alone, the same answer as before the run |
| IdPairs.RetrieveRoundTrip | idmap/service.go:899-963 | retrieving the partner of the partner gives the pair one started from |
| IdPairs.RebindKeepsInvolution | idmap/service.go:1013-1046 | a rebind keeps every key its partner's partner, whether it succeeds or fails |
| IdPairs.RebindMovesOne | idmap/service.go:1013-1046 | a successful rebind moves one pair and leaves every other key alone |
| IdPairs.UpdateProMoves | idmap/service.go:1013-1046 | in lookups: afterwards the new pair, first half first, and the real pair answer with each other and the old one no more; each error exactly when |
| IdPairs.UpdateProSpares | idmap/service.go:1013-1046 | every other pair answers as before |
| IdPairs.RenameOneAdvances | idmap/service.go:1163-1190 | each round of the rename loop, whichever key comes next, leads from one partial renaming to the next, self-partnered keys and taken names included |
| IdPairs.OrderIrrelevantExactly | idmap/service.go:1163-1190 | a rename that does not fail has one result for all orders of the keys if and only if no new name is contended |
| IdPairs.OrderCanMatter | idmap/service.go:1163-1190 | a concrete bucket of three keys with two outcomes |
| IdPairs.RenameFailsExactly | idmap/service.go:1163-1190 | in whatever order, renaming an involution to another id fails if and only if two different keys of the group are each other's partner |
| IdPairs.RenamedExactly | idmap/service.go:1139-1193 | what a finished renaming amounts to, key by key: new names have the old partners, only self-partnered old names stay, other keys are untouched |
| IdPairs.RenameKeepsInvolution | idmap/service.go:1139-1193 | renaming a group onto an unused id keeps the involution |
| IdPairs.RenameExactly | idmap/service.go:1139-1193 | the finished renaming, new names taken or not, is an involution if and only if each taken name's partner is a new name or is renamed to be its partner |
| IdPairs.RenameCanOrphan | idmap/service.go:1139-1193 | a concrete bucket whose finished renaming is no involution |
| IdPairs.RenameOntoTakenExactly | idmap/service.go:1163-1190 | one round of the loop keeps the involution if and only if the new name is free, its own partner, or the key's partner |
| IdPairs.RenameCarriesMembers | idmap/service.go:1110-1193 | afterwards the new id has the members of both, the old id its self-partnered ones only, and other groups keep their lists |
| IdPairs.RenameListsTheSame | idmap/service.go:1110-1193 | renaming onto an unused id, the list of the new id afterwards is the list of the old id before |
| IdMapService.HashedRun | idmap/service.go:108-206 | over every run in hash mode, pair operations interleaved, a stored row gives its id back and no row is shared |
| IdMapService.CountedRun | idmap/service.go:108-206 | the same in counter mode while binds keep clear of the rows still to be counted |
| IdMapService.PairRun | idmap/service.go:251-294 | at the end of every run whose steps fit, each composite key is its partner's partner |
| IdMapService.PairRunExactly | idmap/service.go:251-294 | each composite key is its partner's partner throughout a run if and only if every new pair draws a pair that is free or its own partner and every rename's taken names fit |
| IdMapService.KindsAreSeparate | idmap/service.go:108-294 | pair operations never touch single keys, nor the other way round |
| CacheView.ChannelSearchAgrees | discordgo/state.go:674-687 | what a search of all lists finds, the channel index gives as the same object; with an exact index the two always agree |
| CacheLists.HomesByKind | discordgo/state.go:504-523 | direct messages (types 1 and 3) are private, types 10, 11 and 12 are threads, all else guild channels |
| CacheView.GuildSearchAgrees | discordgo/state.go:180-193 | the same for guilds |
| CacheView.MemberSearchAgrees | discordgo/state.go:382-402 | the same for the members of a listed guild |
| CacheView.GuildAddKeepsIndexed | discordgo/state.go:87-148 | a guild event keeps the index right, whichever of its slices are nil |
| CacheView.GuildAddKeepsExact | discordgo/state.go:87-148 | and exact, for a guild not cached before |
| CacheView.GuildDropKeepsIndexed | discordgo/state.go:151-174 | removing a guild keeps the index right |
| CacheView.GuildDropExactly | discordgo/state.go:151-174 | and exact if and only if the guild has no channels, threads or members |
| CacheView.MemberPutKeepsIndexed | discordgo/state.go:318-321 | appending a member keeps the index right |
| CacheView.MemberPutKeepsExact | discordgo/state.go:318-321 | and exact |
| CacheView.MemberDropKeepsIndexed | discordgo/state.go:347-379 | removing a member keeps the index right |
| CacheView.MemberDropKeepsExact | discordgo/state.go:347-379 | and exact |
| CacheSteps.ChannelPutKeepsIndexed | discordgo/state.go:504-523 | appending a channel where it belongs keeps the index right |
| CacheSteps.ChannelPutKeepsExact | discordgo/state.go:504-523 | and exact |
| CacheSteps.ChannelDropKeepsIndexed | discordgo/state.go:527-578 | removing a channel keeps the index right |
| CacheSteps.ChannelDropKeepsExact | discordgo/state.go:527-578 | and exact |
| CacheSteps.SyncAgreesExactly | discordgo/state.go:581-622 | after a thread sync the index agrees with the new list for every old and synced id if and only if no synced thread has a kept thread's id |
| CacheSteps.SyncKeepsIndexed | discordgo/state.go:581-622 | a thread sync keeps the whole index right |
| CacheSteps.SyncKeepsExact | discordgo/state.go:581-622 | and exact |
| CacheSteps.SyncIndexedExactly | discordgo/state.go:581-622 | after a thread sync the whole index is right if and only if the guild is not listed or no synced thread has a kept thread's id |
| CacheSteps.ReadyIndexedExactly | discordgo/state.go:930-946 | after a READY the index is right if and only if no guild brings threads |
| CacheSteps.FirstReadyExact | discordgo/state.go:930-946 | the first READY makes it exact |
| CacheRuns.SearchAgreesOverRuns | discordgo/state.go:77-622 | at every moment of every run of ready, guild, channel, member and thread-sync steps, whatever a linear search of the lists finds, channel, guild or member, the index gives as the same object; after tidy steps only, the two agree for every id |
| CacheRuns.RunIndexed | discordgo/state.go:77-622 | the index stays right over every run |
| CacheRuns.TidyRunExact | discordgo/state.go:77-622 | and exact while no step can leave entries behind |
| CacheRuns.RemovedGuildLeavesChannel | discordgo/state.go:151-174 | a guild with a channel comes and goes, and the channel is still found through the index |
| CacheRuns.ReadyThreadNotIndexed | discordgo/state.go:930-946 | a first READY with a thread: the search finds the thread, the index does not |
| CacheRuns.ClashingSync | discordgo/state.go:581-622 | a guild with a thread, then a sync with another object of that id: the search gives the old one, the index the new one |
| CacheEffects.ChannelPutFound | discordgo/state.go:504-523 | an added channel is the last of its list and is looked up; every other list, lookup, guild and member stays |
| CacheEffects.ChannelDropFound | discordgo/state.go:527-578 | a removed channel is neither found nor looked up; all else stays |
| CacheEffects.MemberPutFound | discordgo/state.go:318-321 | the same for an added member |
| CacheEffects.MemberDropFound | discordgo/state.go:347-379 | and a removed one |
| CacheEffects.GuildAddFound | discordgo/state.go:87-148 | the guild is found both ways, as the cached object with each of eight fields the event lacks as before, or as the event; no other guild changes |
| CacheEffects.GuildAddLookups | discordgo/state.go:96-121 | the event's channels, threads and members are looked up; without a member list the old index stays |
| CacheEffects.GuildDropFound | discordgo/state.go:151-174 | a removed guild is found neither way; all others, and all channels and members, stay |
| CacheEffects.ReadyFound | discordgo/state.go:930-946 | what a READY names is looked up, everything else as before |
| CacheEffects.SyncFound | discordgo/state.go:581-622 | synced threads are looked up, dropped ones not, everything else as before |
| Cache.Compact | discordgo/state.go:593-609 | the in-place compaction leaves at the front exactly the threads that stay, in order, and deletes the entries of the others |
| Cache.SelectSplits | discordgo/state.go:593-609 | threads that stay and threads that go divide the list, with distinct ids |
| Cache.SelectDivides | discordgo/state.go:593-609 | a thread goes exactly when it is archived, the sync is of the whole guild, or its parent is synced |
| Cache.LastEntryCounts | discordgo/state.go:615-619 | of several member entries for a thread the last one counts |
| Cache.State.OnReady | discordgo/state.go:909-949 | the whole new content, and when the index is right afterwards; a disabled cache only empties the lists |
| Cache.State.GuildAdd | discordgo/state.go:87-148 | overwrites in place, field by field keeping what the event lacks, or appends; keeps the index right |
| Cache.State.GuildRemove | discordgo/state.go:151-174 | takes out exactly that guild |
| Cache.State.MemberAdd | discordgo/state.go:307-331 | overwrites in place, keeping the join date, or appends; keeps the index right and exact |
| Cache.State.MemberRemove | discordgo/state.go:347-379 | the new content and when it reports an error |
| Cache.State.ChannelAdd | discordgo/state.go:480-524 | overwrites in place, keeping messages, overwrites and metadata, or appends where it belongs |
| Cache.State.ChannelRemove | discordgo/state.go:527-578 | the new content and when it reports an error |
| Cache.State.ThreadListSync | discordgo/state.go:581-622 | the guild's threads are the old ones that stay followed by the synced ones; the index is right exactly when no synced thread has the id of one that stays, and stays exact; every indexed channel named in the event has its member entry set, and nothing else in it changes |
| Cache.SetThreadMembers | discordgo/state.go:615-619 | the last entry for an id reaches the cached channel, and changes nothing else in it |
| Messages.MessageList.MessageAdd | discordgo/state.go:750-802 | merges into a cached message or appends and drops the oldest beyond the limit |
| Messages.MessageList.MessageRemoveByID | discordgo/state.go:814-832 | takes out exactly that message and reports whether it was there |
| Messages.RunBounded | discordgo/state.go:750-832 | over every run the cached ids are distinct, at most the limit, and stand in the order of their appends |
| Messages.WithoutRemovalsTheLast | discordgo/state.go:750-802 | without removals they are exactly the last ones appended |
| Messages.AddedExactly | discordgo/state.go:783-799 | a new message becomes the last, and the oldest go until the limit is kept |
| Messages.RemovedExactly | discordgo/state.go:814-832 | the first message of that id goes and nothing else |
| Permissions.MemberPermissions | discordgo/restapi.go:508-571 | the loops compute the specified mask |
| Permissions.PermissionBits | discordgo/restapi.go:508-571 | bit by bit, for the first overwrite of type 1 for the user, all of type 0 for held roles, and the first with the guild's id: member allow, member deny, role allow, role deny, everyone allow, everyone deny, roles; owners and administrators as stated |
| Permissions.MaskValues | discordgo/structs.go:2110-2195 | the bits of the combined masks |
| Permissions.OrderIrrelevant | discordgo/restapi.go:508-571 | with unique ids no reordering of roles, member roles or overwrites changes anybody's permissions |
| Permissions.Guild.FirstRoleColor | discordgo/state.go:1271-1292 | the colour of a held coloured role of maximal position, else that of everyone, else 0; the roles are only permuted |
| Permissions.ScanColours | discordgo/state.go:1275-1291 | the two scans find that colour in sorted roles |
| Permissions.ColourLookupKeepsPermissions | discordgo/state.go:1272-1273 | the sort of a colour lookup changes no permission result |
| RateLimit.Bucket.GetWaitTime | discordgo/ratelimit.go:73-87 | the wait, from the readings of the clock, in order, and of the global deadline |
| RateLimit.Bucket.LockBucketObject | discordgo/ratelimit.go:95-104 | at every grant a call remained or the reset has passed; a grant not delayed by the own reset is not before the global deadline read |
| RateLimit.Bucket.Release | discordgo/ratelimit.go:122-197 | always unlocks, and what it learns from which headers |
| RateLimit.HeadersMean | discordgo/ratelimit.go:140-197 | which headers count and what for |
| RateLimit.ResetFollowsServer | discordgo/ratelimit.go:164-181 | however far the two clocks are apart, the new reset is never earlier than 250 ms after the server's, and exactly that for an answer that took no time |
| RateLimit.GlobalRespectedExactly | discordgo/ratelimit.go:73-87 | every grant possible for given readings respects the global deadline if and only if the bucket has calls left, its reset has passed, or that reset is not before the deadline |
| RateLimit.GrantedEarly | discordgo/ratelimit.go:73-87 | a concrete possible grant 990 ms before the global deadline it read |
| RateLimit.EarliestGrant | discordgo/ratelimit.go:73-104 | the earliest possible grant: the own reset if the bucket is out of calls, else the global deadline, or at once |
| RateLimit.UseReactions | discordgo/ratelimit.go:30-43 | on the reactions bucket every grant is at least 200 ms after the previous Release read the clock, which is after it began |
| Rest.RequestWithLockedBucket | discordgo/restapi.go:195-309 | every acquisition is matched by one release, the bucket ends unlocked, exactly the retriable prefix of the replies is retried, each answer is given exactly for the replies that call for it, and the asked pauses are kept |
| Rest.Request | discordgo/restapi.go:187-192 | the replies determine the retries and the answer: Body exactly for a received 200, 201 or 204, exceeded retries for a received 502 with the budget spent, rate limited for a decodable 429 with retrying off, and so on; sends are one plus retried 502s plus retried rate limits |
| Rest.RetriesUnique | discordgo/restapi.go:265-297 | the replies determine the number of retries |
| Rest.FurtherIsTooFar | discordgo/restapi.go:269-277 | retrying any further would exceed the budget |
| Rest.BadGatewaysCounted | discordgo/restapi.go:269-277 | the count of 502s is the number of such replies |
| Upload.RateLimiter.CheckAndUpdateRateLimit | server/uploadpic.go:188-201 | the stored list is the trailing minute of the full log, and the verdict counts it against the limit configured at this call |
| Upload.Serve | server/uploadpic.go:188-201 | over a run of requests of several addresses each is granted exactly when the minute up to it holds no more of its address's requests than the limit then; in no closed minute are more granted than the largest limit configured |
| Upload.DecidedExactly | server/uploadpic.go:188-201 | that condition, counted over the requests |
| Upload.MinuteBound | server/uploadpic.go:188-201 | that bound, on the requests and the answers |
| Upload.WindowBound | server/uploadpic.go:188-201 | every closed minute of a log holds at most the limit of accepted requests |
| Upload.SuffixIsTrailing | server/uploadpic.go:195-198 | trimming the front of a monotone list leaves its trailing minute |
| Send.Invoke | handlers/send_group_msg.go:18-135 | the recursion terminates under its condition and no counter ever exceeds 4 |
| Send.Echo.Handle | handlers/send_msg.go:20-113 | the three handlers on the shared maps are that recursion, from the type and under the id the next rows state |
| Send.StartsWithTheFirst | handlers/send_private_msg.go:18-47 | the type a send starts with is that of the first place that has one: the echo's entry, the entry of the user's key for a private send and the group's for the others, the other one, then the stored types in the same order |
| Send.KnownTypeOnce | handlers/send_private_msg.go:48-86 | with such a type, or an id that is no number, and a counter of at most 1, a send is one invocation with exactly that type |
| Send.EchoGoesOn | handlers/send_private_msg.go:48-86 | a counter of up to 4 makes a send whose type comes from its echo go on with that type, once for each count |
| Send.CountsUnder | handlers/send_msg.go:45-51 | a send counts under its user id, else its group id, else 0, and writes the entry of that id |
| Send.NoNumber | handlers/send_msg.go:45-60 | a user id that is no number counts under 0 |
| Send.CanonicalTerminates | handlers/send_private_msg.go:18-86 | it terminates for every canonical decimal id, in all three handlers |
| Send.FormattedTerminates | handlers/send_msg.go:20-113 | in particular for every id the bridge hands out |
| Send.OtherwiseDiverges | handlers/send_msg.go:52-65 | a send outside that condition calls itself again to any depth |
| Send.LeadingZerosDiverge | handlers/send_private_msg.go:48-60 | the text 007 is such a send |
| Send.NoIdsDiverge | handlers/send_msg.go:20-65 | nor does a send with neither a group nor a user id come back |
| Send.RetryGoesThrough | handlers/send_group_msg.go:119-133 | which types a retry with a given type and counter goes through, and what it leaves |
| Send.UnknownTriesFive | handlers/send_msg.go:52-111 | an unknown id is tried exactly five times, in order, and what is left in the two maps |
| Events.RunValid | discordgo/event.go:65-201 | at every moment each table lists instances of its own kind, each once, in registration order |
| Events.TablesExactly | discordgo/event.go:65-201 | a table holds exactly the instances registered and not removed, and for once-handlers not yet called |
| Events.FiredExactly | discordgo/event.go:166-201 | a handler is called for an event exactly when it is registered or pending for it then |
| Events.LogInOrder | discordgo/event.go:166-201 | within an event the permanent handlers of every type, then the once-handlers of every type, then the event's own permanent ones, then its own once-handlers, each in registration order, and none twice |
| Events.DeleteInPlace | discordgo/event.go:150-155 | the loop without a break deletes exactly its instance and keeps the others' order |
| Events.Session.AddEventHandler | discordgo/event.go:65-79 | extends the run by one registration |
| Events.Session.AddEventHandlerOnce | discordgo/event.go:83-97 | the same for one event only |
| Events.Session.RemoveEventHandlerInstance | discordgo/event.go:146-163 | extends the run by one removal, from both tables |
| Events.Session.Handle | discordgo/event.go:166-185 | permanent handlers, then once-handlers, which are dropped |
| Events.Session.HandleEvent | discordgo/event.go:189-201 | extends the run by one event, interface handlers first |
| Gateway.RunKeeps | discordgo/wsapi.go:53-209 | over every run the session's connection and channel are the only open ones, and with the lock free they come and go together |
| Gateway.RunClosesOnce | discordgo/wsapi.go:939-985 | no channel and no connection is closed twice or before it is opened |
| Gateway.GreetingsMatchHistory | discordgo/wsapi.go:127-162 | a resume carries the session id as last set when it is written, and the sequence last processed when the sequence was loaded for this connection; an identify is sent only when that sequence was 0 and no session id was set |
| Gateway.ConnectedIsGreeted | discordgo/wsapi.go:53-209 | over every run a session with a connection and the lock free has greeted that connection exactly once |
| Gateway.ProcessExactly | discordgo/wsapi.go:545-671 | what processing a held packet changes, whatever the packet and whatever happened since |
| Gateway.ReadySets | discordgo/wsapi.go:545-671 | a READY sets session id and sequence, in a listener and as the first packet of an Open |
| Gateway.StuckExactly | discordgo/wsapi.go:598-634 | a region of Open never returns exactly when it reads a packet that needs the lock it holds |
| Gateway.OpenCanJam | discordgo/wsapi.go:598-634 | after a hello and a reconnect request no step of any Open or Close changes anything any more |
| Gateway.AdvanceEnds | discordgo/wsapi.go:53-209 | each region of Open leads to the next, or ends connected and listening, or leaves neither behind, or never returns |
| Gateway.OnlyPresentListenerReads | discordgo/wsapi.go:247-253 | only the listener of the present channel takes up a packet |
| Gateway.AtMostTheOneHeld | discordgo/wsapi.go:213-257 | over every run, once its channel is closed a listener processes at most the one packet it holds, and none if it holds none |
| Gateway.QuietUntilOpen | discordgo/wsapi.go:939-985 | disconnected and with no packet held, nothing changes until the next Open |
| Gateway.LateDispatch | discordgo/wsapi.go:247-257 | a dispatch read before a Close changes the sequence after it |
| Gateway.PanicsOnlyOnceClosed | discordgo/wsapi.go:573-614 | over every run a held packet whose answer would be written to nil is held by a listener whose channel is closed |
| Gateway.LateAnswerPanics | discordgo/wsapi.go:573-614 | a concrete run to such a moment, for op 1 and for op 9 |
| GatewaySession.Session.OnEvent | discordgo/wsapi.go:545-671 | what each kind of packet does to the session before its handlers run, and when it panics |
| GatewaySession.Session.Select | discordgo/wsapi.go:241-253 | the read and the look at the channel, one step of the run |
| GatewaySession.Session.Listen | discordgo/wsapi.go:213-257 | one round of the listener loop, anything in between |
| GatewaySession.Session.Open | discordgo/wsapi.go:53-209 | Open as steps of the run, listeners in between: it succeeds exactly when there was no connection, an address was known or fetched, the dial worked, the hello is a readable op 10, the greeting was written, and another packet but op 7 or 11 was read and answered if it asks for that; it never returns exactly when it reads an op 7 or 11; otherwise it leaves nothing behind |
| GatewaySession.Session.CloseWithCode | discordgo/wsapi.go:939-985 | leaves neither connection nor channel, listeners in between |

## Left out

- The lotus and HTTP branches of the `…v2` functions, the web UI, the message parser, voice, images and the thin
  REST wrappers: network code or easy facts.
- Bolt's page layout, key size limits and byte-slice lifetimes, JSON and zlib: a bucket is a map, a packet a value,
  and a packet that decodes to null is not modelled.
- MD5 is a parameter; nothing is claimed about how often digests agree.
- `fmt.Sscanf` skips blanks before a number; the texts scanned here are written by `Sprintf` without any.
- Masks are sets of bit positions instead of 64-bit integers, so that `|=`, `&= ^` and the test of one bit are set
  operations.
- `sort.Sort` is any sorting permutation; its own algorithm is not modelled, and it promises no stable order.
- Goroutine scheduling is any interleaving of the gateway's regions; asynchronous dispatch (`SyncEvents` off) is
  not modelled. A handler that changes the tables while it runs would wait on the lock and is not modelled.
- The reconnect race between `listen` and `heartbeat`: both may call Close and Open, which is any order of those
  steps here; that only one of them reconnects is not claimed.
- GatewaySession.Session.Listen: the Close and Open that an op 7 or a failed read leads to are those steps, in any
  order with the others; a listener whose read failed is free to read again.
- GatewaySession.Session.OnEvent: the time of the last heartbeat acknowledgement is not modelled. After a panic the
  runs go on as after a failed write, where the source's process ends. Shard numbers are within bounds.
- `State.ThreadMembersUpdate` removes from a slice while ranging over it; presences, emojis, voice states, roles
  and `BeforeUpdate` copies of the cache have no rows of their own.
- `setGuildIds` and the `MemberCount` adjustments around the cache calls.
- Events.Session.HandleEvent: the internal handler that runs first is not part of it; it is `Cache` and the session
  id of `Gateway`.
- Send.Echo.Handle: what the handlers send, and the return of a group send whose user id is not a string after
  unmarshalling, are not modelled; only the recursion is.
- Rest.RequestWithLockedBucket: the responses are a finite list; when it runs out the transport fails.
- IdPairs.RenameExactly: a rename in which a new name is contended is not part of it, nor of the runs; its bucket
  is stated by the order of the rounds only.
- IdMapService.IdMap.StoreID: an id with a colon, or one named like a key the bucket uses itself, is outside.
- IdMapService.IdMap.SimplifiedStoreID: the same ids are outside.
- IdMapService.IdMap.StoreIDPro: ids with a colon are outside.
- IdPairRuns.StoredPairAnswered: runs in which a rename gives a virtual pair a name that is no decimal form are
  outside, and so is a stored pair that is itself two decimal forms; DecimalPairAnswered and StoredRun cover those.
- Cache.State.OnReady: a READY with an id twice in one list, or with thread objects already cached, is outside.
- Cache.State.ThreadListSync: a sync that lists one thread id twice is outside.
- Cache.State.ChannelAdd: a channel that changes its type or guild between events is outside.
- Cache.State.ChannelRemove: an event that names another type or guild than the cached channel's is outside.
- Cache.State.GuildAdd: an event with an id twice in one list is outside; ids are constants beside the struct, so
  overwriting an id by the equal one is not a write.
- Messages.MessageList.MessageAdd: Go slices share their backing array with earlier slices; the list is a value
  here.
