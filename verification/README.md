# Telegram Desktop: requests, caches and the packer

A Dafny model of the parts of Telegram Desktop whose behaviour is decided by
small explicit state: the packer's hand-written SHA-1 and its list of input
files, the updater's copy plan, the request protocols of `ApiWrap`, and the
queues, caches and hashes under `api/`.

The network is a map of requests in flight. Request ids are fresh and positive;
requests are answered or fail in any order, never inside the call that sends
them, and a cancelled request never calls back. Times, random ids and what the
rest of the session knows are parameters. Every operation that the program
writes as a method over fields or as a loop is a method here, proved equal to a
transition function; invariants are proved for each transition and, by
induction, for every run.

| module | what it models |
|---|---|
| `Fips180` | SHA-1 as FIPS 180-4 defines it (sections 4.1.1, 4.2.1, 5.1.1, 5.2.1, 5.3.1, 6.1.2): the reference for the packer |
| `PackerSha1` | the packer's in-place SHA-1 |
| `PackerFiles` | the packer's restarting loop over files and directories |
| `UpdatePlan` | the updater's breadth-first plan of copies |
| `MessageData` | batched message requests with callbacks |
| `WebPages` | the two-pass web page resolver with temporary negative request ids |
| `StickerSets`, `StickerProtocol` | saving sticker sets: the passes over the store, and the requests of overlapping saves |
| `DialogsLoad` | paging through the dialogs lists |
| `ForwardMessages` | cutting a forwarded draft into requests, and the shared callback |
| `PremiumRequired` | asking in slices which users require premium |
| `InviteLinks` | the cache of invite links |
| `SearchToken`, `MessagesSearch` | the cache of first search pages and its printed key |
| `ListHash` | the 64-bit list hash |
| `BlockedPeers`, `BlockedReentrant` | block and unblock requests, and callbacks that block and unblock again |
| `SendProgress` | the throttle of "typing" notifications |
| `Collections` | shared vocabulary |

## Where the code does not do what one would expect

Each of these is a lemma about the code as it is, with the exact condition where
the expected property is conditional.

- SHA-1 stores 32 bits of the bit length: `PackerSha1.PadAgrees`.
- A page whose request failed is stuck: `WebPages.LostStaysStuck`, reached in `WebPages.PageGetsLost`. Pages due without a message may be left with no timer: `WebPages.ForgottenExactlyWhen`, reached in `WebPages.PageGetsForgotten`.
- "Not modified" ends a dialogs load without finishing it: `DialogsLoad.ListAppliedInv`, `DialogsLoad.PostedExactly`, reached in `DialogsLoad.NotModifiedRun`.
- The offset of the next dialogs page may mix two dialogs: `DialogsLoad.OneDialogExactlyWhen`, `DialogsLoad.MixedOffset`.
- Two files of an update may be copied to the same target: `UpdatePlan.SameTarget`, `UpdatePlan.BothSpellingsClash`.
- The invite link discipline depends on the server: `InviteLinks.StepExact`, `InviteLinks.TwoLiveBreak`.
- The paid reaction, document 0 and the empty text print alike in the search cache's key, so one request can be served the page of another: `SearchToken.CollidesExactlyWhen`, `MessagesSearch.MisservedExactlyWhen`. A line break in a query has the same effect: `SearchToken.BreaksCollideExactlyWhen`, `MessagesSearch.MisservedAfterBreaksExactlyWhen`.
- The featured hash cannot tell an unread mark from a set numbered 1: `ListHash.AmbiguousExactlyWhen`.
- An unblock callback can be told the outcome of another request, or "failed" with no reply at all: `BlockedPeers.MishearsExactlyWhen`, `BlockedPeers.HearsOwnOutcome`, reached in `BlockedPeers.StaleReplyMisreports`, `BlockedPeers.OppositeCallMisreports` and `BlockedPeers.StaleReplyPromises`.
- A callback that calls again can leave an entry that is not that of the latest request: `BlockedReentrant.NewestKeptExactlyWhen`, `BlockedReentrant.CallbackOvertaken`.
- After the last page of a search, asking for more shows the first page again: `MessagesSearch.EndRestarts`.
- A kept sticker set named twice among the removed ones is uninstalled twice: `StickerSets.UninstalledTwiceExactlyWhen`, `StickerSets.FeaturedTwice`.

## Model

| member | source | states |
|---|---|---|
| PackerSha1.HashSha1 | Telegram/SourceFiles/_other/packer.cpp:96-132 | the first 20 bytes of `dest` are the SHA-1 of FIPS 180-4 for every input under 2^29 bytes, and for longer ones, short of 2^32 - 64 bytes, the same hash over the packer's own padding; the rest of `dest` keeps its bytes |
| PackerSha1.Sha1PartHash | Telegram/SourceFiles/_other/packer.cpp:60-92 | the in-place rounds turn the chaining value into the compression of FIPS 180-4 section 6.1.2 of the sixteen words loaded, whatever the buffer held above them |
| PackerSha1.ShiftSwap | Telegram/SourceFiles/_other/packer.cpp:63-71 | one round: the five registers advance to the reference state after one more round |
| PackerSha1.ShiftShiftSwap | Telegram/SourceFiles/_other/packer.cpp:73-76 | one round that first extends the message schedule in place, keeping every scheduled word equal to the recursive W of the standard |
| PackerSha1.OrForms | Telegram/SourceFiles/_other/packer.cpp:78-82 | the OR forms of the choice and majority functions agree with the exclusive-or forms of section 4.1.1 in each of the four phases |
| PackerSha1.PadAgrees | Telegram/SourceFiles/_other/packer.cpp:115-123 | the packer's padding is the padding of section 5.1.1 if and only if the message is shorter than 2^29 bytes, because only the low word of the bit length is stored |
| PackerSha1.OrByte | Telegram/SourceFiles/_other/packer.cpp:114-117 | OR-ing a byte into its place of a zeroed word writes that byte and disturbs no other word |
| PackerSha1.LoadBlock | Telegram/SourceFiles/_other/packer.cpp:102-107 | the sixteen words of the buffer are the big-endian words of the 64 bytes read |
| PackerSha1.FillTail | Telegram/SourceFiles/_other/packer.cpp:111-117 | the buffer holds the remaining bytes, the byte 0x80 and zeros |
| PackerSha1.OneBlockTail | Telegram/SourceFiles/_other/packer.cpp:111-123 | a tail under 56 bytes gives one last block, which is the last block of the padded message |
| PackerSha1.SpilledBlock | Telegram/SourceFiles/_other/packer.cpp:118-121 | a tail of 56 bytes or more makes the padded message one block longer, and the filled buffer is its last but one block |
| PackerSha1.LengthBlock | Telegram/SourceFiles/_other/packer.cpp:118-123 | and the cleared buffer with the length word is its last block |
| PackerSha1.HashTail | Telegram/SourceFiles/_other/packer.cpp:111-123 | from the state after the whole blocks to the state after the padded message, for both shapes of the tail |
| PackerSha1.HashPrefix | Telegram/SourceFiles/_other/packer.cpp:101-109 | the whole blocks of a message are also the first blocks of its padded form, so the loop's state is the reference state |
| PackerSha1.WriteDigest | Telegram/SourceFiles/_other/packer.cpp:125-129 | the loop with its `(3 - i) & 3` shift writes the five words in big-endian order and nothing past byte 19 |
| PackerFiles.Flatten | Telegram/SourceFiles/_other/packer.cpp:211-234 | the restarting loop terminates; it fails exactly when it meets an unreadable file, and otherwise leaves the files of the tree in level order: each file as often as a path reaches it, no directory, nothing hidden |
| PackerFiles.LevelOrderExact | Telegram/SourceFiles/_other/packer.cpp:211-234 | the level order is a permutation of the leaves that a depth-first enumeration of the tree gives |
| PackerFiles.LeavesReached | Telegram/SourceFiles/_other/packer.cpp:211-234 | every file that is not hidden is in the final list as often as a path of positions reaches it through directories that are shown: inputs whatever they are, below them nothing hidden and no link |
| PackerFiles.ReadableExact | Telegram/SourceFiles/_other/packer.cpp:225-227 | the loop fails if and only if such a path reaches an unreadable file, hidden inputs included |
| PackerFiles.ListingExact | Telegram/SourceFiles/_other/packer.cpp:220-223 | a directory's listing loses the hidden entries and the links, with multiplicity, and nothing else |
| PackerFiles.ReplaceStep | Telegram/SourceFiles/_other/packer.cpp:217-232 | erasing one entry and appending its listing changes neither the final order nor readability, and strictly decreases the node count |
| PackerFiles.PlainPrefix | Telegram/SourceFiles/_other/packer.cpp:214-233 | the entries the scan has passed stay where they are through every restart |
| UpdatePlan.PlanUpdate | Telegram/SourceFiles/_other/updater_linux.cpp:215-289 | the walk terminates on every finite tree; it succeeds if and only if every directory opens and no file lands on the updater; then `from` is the multiset of planned files, each with its target, every forced directory is the image of a visited one, and what is left of it without its last component is the root or forced earlier; every target but the renamed binary lies in the root or in a forced directory |
| UpdatePlan.FilesExact | Telegram/SourceFiles/_other/updater_linux.cpp:253-287 | the planned files are exactly the files of the whole tree that are neither inside `tdata` nor the ready file |
| UpdatePlan.DirsExact | Telegram/SourceFiles/_other/updater_linux.cpp:259-264 | the visited directories are exactly those of the whole tree outside `tdata` |
| UpdatePlan.GoodExact | Telegram/SourceFiles/_other/updater_linux.cpp:247-270 | the verdict is about the whole tree: the walk rejects if and only if some directory outside `tdata` does not open or some file outside it lands on the updater |
| UpdatePlan.TargetInDir | Telegram/SourceFiles/_other/updater_linux.cpp:241-266 | a file is relocated to where the directory it lies in is forced |
| UpdatePlan.FileParent | Telegram/SourceFiles/_other/updater_linux.cpp:253-280 | a planned file lies in the update directory or in a visited one |
| UpdatePlan.ForcedApart | Telegram/SourceFiles/_other/updater_linux.cpp:241-245 | different directories are forced as different directories |
| UpdatePlan.ReadDir | Telegram/SourceFiles/_other/updater_linux.cpp:247-288 | reading one directory moves its entries between the queue and the plan without loss, and rejects if and only if one of its own files outside `tdata` lands on the updater |
| UpdatePlan.ReadEntry | Telegram/SourceFiles/_other/updater_linux.cpp:257-286 | one entry: skipped, queued, planned or rejected, with the balance of files, directories and remaining size |
| UpdatePlan.SameTarget | Telegram/SourceFiles/_other/updater_linux.cpp:266-275 | two different planned files get the same target if and only if the binary is renamed and both stand for it, compared without letter case, or one is already called by the new name |
| UpdatePlan.BothSpellingsClash | Telegram/SourceFiles/_other/updater_linux.cpp:266-275 | and that happens: a tree with the binary under two spellings is accepted, and any plan of it copies two different files to the one path of the renamed binary |
| UpdatePlan.ChildHangs | Telegram/SourceFiles/_other/updater_linux.cpp:241-263 | a child directory is its parent with one more path component, and the parent is the root or forced already |
| UpdatePlan.AfterParent | Telegram/SourceFiles/_other/updater_linux.cpp:231-245 | what the order is for: if `r/n` is forced, where n is one component, then `r` was forced earlier |
| UpdatePlan.WalkForces | Telegram/SourceFiles/_other/updater_linux.cpp:237-245 | popping a directory keeps the parent-first order and accounts for every directory once |
| MessageData.ApiWrap.RequestMessageData | Telegram/SourceFiles/apiwrap.cpp:584-597 | registers one callback with its entry and queues a resolve when the entry has no request yet |
| MessageData.RegisteredGoes | Telegram/SourceFiles/apiwrap.cpp:588-596 | a callback registered is stored with its message, and a resolve is queued or a request in flight to its chat asks for the message |
| MessageData.TokensRegistered | Telegram/SourceFiles/apiwrap.cpp:584-597 | the callbacks counted in a run are exactly those its events register |
| MessageData.ApiWrap.ResolveMessageDatas | Telegram/SourceFiles/apiwrap.cpp:629-683 | each chat with unresolved entries gets exactly one fresh request that asks for exactly those entries; nothing else changes |
| MessageData.ApiWrap.ResolveTable | Telegram/SourceFiles/apiwrap.cpp:634-653 | the loop over one table: a request only if there are unresolved entries, and its id on each of them |
| MessageData.ApiWrap.TakeEntries | Telegram/SourceFiles/apiwrap.cpp:688-711 | exactly the entries of the finished request are erased, their callbacks moved out once each, and an emptied channel table is dropped |
| MessageData.ApiWrap.FinalizeMessageDataRequest | Telegram/SourceFiles/apiwrap.cpp:685-715 | the entries go before any callback runs, so callbacks that register again keep the invariant |
| MessageData.StepInv | Telegram/SourceFiles/apiwrap.cpp:584-715 | registering, resolving, answering and running a callback each keep: an entry without a request has a resolve queued, one with a request is covered by exactly that request in flight to the same chat, a request in flight asks only for entries with its number, and every registration is stored, taken out or run, in exactly one of the three |
| MessageData.RunInv | Telegram/SourceFiles/apiwrap.cpp:584-715 | hence in every run, in any interleaving |
| MessageData.QuiescentAllFired | Telegram/SourceFiles/apiwrap.cpp:584-715 | once nothing is queued or in flight, each callback ever registered has run exactly once |
| MessageData.WaitingCovered | Telegram/SourceFiles/apiwrap.cpp:594-596 | a callback still stored waits for a queued resolve or for a request in flight to its chat that asks for its message |
| MessageData.AskedOnce | Telegram/SourceFiles/apiwrap.cpp:603-607 | no message is asked for by two requests at once |
| MessageData.CallbacksRunInv | Telegram/SourceFiles/apiwrap.cpp:712-714 | the callback loop keeps the invariant for every way in which callbacks register again |
| MessageData.ResolvedInv | Telegram/SourceFiles/apiwrap.cpp:629-683 | a resolve covers every entry |
| MessageData.TakenInv | Telegram/SourceFiles/apiwrap.cpp:685-711 | taking out the entries of one request leaves every other entry covered |
| WebPages.ApiWrap.ResolveWebPages | Telegram/SourceFiles/apiwrap.cpp:2291-2367 | no temporary number is left; every due page with an item carries the id of the one request sent now to its own chat, which asks for its message; each new request asks only for due pages, one request per chat; pages in flight or not due are unchanged; the timer is set for the earliest page left, at most a day ahead |
| WebPages.Group | Telegram/SourceFiles/apiwrap.cpp:2297-2328 | after the first loop each due page carries the temporary number of its group, the group holds its message, and channel indices are a bijection onto 0..n-1 |
| WebPages.ApiWrap.SendChannel | Telegram/SourceFiles/apiwrap.cpp:2341-2350 | one channel: its request id lands at its own index and no other |
| WebPages.ApiWrap.SendGroups | Telegram/SourceFiles/apiwrap.cpp:2330-2350 | one request for each group that is not empty, its id stored at the group's index |
| WebPages.Renumber | Telegram/SourceFiles/apiwrap.cpp:2351-2363 | the third loop replaces every temporary number and no positive one |
| WebPages.IndexedMore | Telegram/SourceFiles/apiwrap.cpp:2306-2318 | adding a message to a channel, new or known, keeps the indices a bijection |
| WebPages.DueSent | Telegram/SourceFiles/apiwrap.cpp:2319-2360 | decoding `-1` and `-index - 2` gives a due page the request of its own group |
| WebPages.OnePerChat | Telegram/SourceFiles/apiwrap.cpp:2330-2350 | no two requests of one pass go to the same chat |
| WebPages.ApiWrap.GotWebPages | Telegram/SourceFiles/apiwrap.cpp:2581-2596 | erases exactly the pages of the answered request and marks those still pending as failed |
| WebPages.GotExact | Telegram/SourceFiles/apiwrap.cpp:2583-2594 | a page is gone after a reply if and only if it waited for that request; the others keep their numbers |
| WebPages.RequestAdds | Telegram/SourceFiles/apiwrap.cpp:2272 | a page asked for is pending afterwards, and nothing else changes |
| WebPages.ApiWrap.RequestWebPageDelayed | Telegram/SourceFiles/apiwrap.cpp:2268-2277 | adds a page that is not known yet and leaves a known one as it is, and sets the timer unless it fires sooner; a failed or finished page changes nothing |
| WebPages.ApiWrap.ClearWebPageRequest | Telegram/SourceFiles/apiwrap.cpp:2279-2284 | drops one page, and stops the timer when it was the last |
| WebPages.ApiWrap.ClearWebPageRequests | Telegram/SourceFiles/apiwrap.cpp:2286-2289 | drops all pages and stops the timer |
| WebPages.ArmedInTime | Telegram/SourceFiles/apiwrap.cpp:2273-2276 | after a request the timer runs and fires no later than the page is due |
| WebPages.ForgottenExactlyWhen | Telegram/SourceFiles/apiwrap.cpp:2299-2366 | a pass started by the timer leaves it off if and only if each page it leaves without a request was due and no message with it was found |
| WebPages.PageGetsForgotten | Telegram/SourceFiles/apiwrap.cpp:2299-2366 | and that happens: a page is asked for, no message with it is found when it is due, and the pass leaves it with no request and no timer |
| WebPages.StepInv | Telegram/SourceFiles/apiwrap.cpp:2268-2367 | no step leaves a temporary number, and a positive number names a request that is in flight or was lost |
| WebPages.RunInv | Telegram/SourceFiles/apiwrap.cpp:2268-2367 | hence in every run: a page is idle, or its request is in flight or was lost |
| WebPages.LostStaysStuck | Telegram/SourceFiles/apiwrap.cpp:2332-2349 | the requests have no failure handler: a page whose request failed keeps that request's number through every continuation that does not clear it, so it is never asked for again |
| WebPages.PageGetsLost | Telegram/SourceFiles/apiwrap.cpp:2332-2349 | and that happens: a run of three steps in which a page's request fails |
| StickerSets.ApiWrap.SaveStickerSets | Telegram/SourceFiles/apiwrap.cpp:1452-1726 | the store, the order and the recent stickers after a save, for every start; and on the network, of this kind and of no earlier save, one install for each archived set ordered and not removed, the stated number of uninstalls for each set, and a clearing for each time a cloud pack is named; the other two orders are unchanged |
| StickerSets.OrderStoredInstalled | Telegram/SourceFiles/apiwrap.cpp:1639-1673 | the new order holds exactly the requested sets that survived removal, and each of them is stored and installed, pruning included |
| StickerSets.OrderFiltered | Telegram/SourceFiles/apiwrap.cpp:1639-1668 | the new order is the requested one with the other sets taken out, in place and with its repetitions |
| StickerSets.FlagsExact | Telegram/SourceFiles/apiwrap.cpp:1600-1673 | what each stored set ends with: which flags and dates change, and that nothing else does |
| StickerSets.WithoutFiltered | Telegram/SourceFiles/apiwrap.cpp:1583-1590 | recent stickers go one by one, the rest keep their order |
| StickerSets.SavedOnWire | Telegram/SourceFiles/apiwrap.cpp:1599-1663 | the requests of a save, counted on the network by what they carry |
| StickerSets.InstalledIffOrdered | Telegram/SourceFiles/apiwrap.cpp:1626-1673 | a stored, non-archived set of the saved kind is installed if and only if it is in the new order |
| StickerSets.OtherKindsKept | Telegram/SourceFiles/apiwrap.cpp:1627-1637 | a set of another kind that the call does not name is kept if and only if one of the six reasons to stay holds, with all its flags |
| StickerSets.LostExactlyWhen | Telegram/SourceFiles/apiwrap.cpp:1544-1687 | exactly which stored sets disappear, by removal or by pruning |
| StickerSets.PassesCompose | Telegram/SourceFiles/apiwrap.cpp:1544-1687 | removal, clearing, ordering and pruning, done one after the other, give each set the flags stated set by set |
| StickerSets.RemoveStepIs | Telegram/SourceFiles/apiwrap.cpp:1580-1623 | one more removal, including ids named twice and the cloud packs that take the custom set along |
| StickerSets.RecentStepIs | Telegram/SourceFiles/apiwrap.cpp:1556-1590 | the recent stickers lose exactly those of the removed sets, or all once a cloud pack is removed |
| StickerSets.SentStepRight | Telegram/SourceFiles/apiwrap.cpp:1591-1607 | the number of uninstall requests for each set: one if it is erased then, else one each time it is named, the custom set only until a cloud pack takes it along; clearings likewise |
| StickerSets.UninstallsMore | Telegram/SourceFiles/apiwrap.cpp:1580-1607 | one more removal adds an uninstall request if and only if the set is still stored and not archived |
| StickerSets.UninstalledTwiceExactlyWhen | Telegram/SourceFiles/apiwrap.cpp:1580-1623 | a set gets more than one uninstall request if and only if it is stored, not archived, has a reason to be kept, and is named more than once before a cloud pack takes it along |
| StickerSets.FeaturedTwice | Telegram/SourceFiles/apiwrap.cpp:1580-1623 | and that happens: a featured set named twice gets two |
| StickerSets.InstallStepRight | Telegram/SourceFiles/apiwrap.cpp:1645-1667 | install requests go to exactly the ordered archived sets that were not removed, once each even if ordered twice |
| StickerSets.OrderPass | Telegram/SourceFiles/apiwrap.cpp:1640-1673 | one position of the ordering loop, on the store and on the order together |
| StickerSets.ApiWrap.RemoveSets | Telegram/SourceFiles/apiwrap.cpp:1544-1624 | the whole removal loop |
| StickerSets.ApiWrap.ClearInstalled | Telegram/SourceFiles/apiwrap.cpp:1627-1637 | installed flags go from the non-archived sets of the saved kind only |
| StickerSets.ApiWrap.BuildOrder | Telegram/SourceFiles/apiwrap.cpp:1639-1673 | the whole ordering loop |
| StickerSets.ApiWrap.Prune | Telegram/SourceFiles/apiwrap.cpp:1675-1687 | exactly the sets with none of the six reasons to stay are erased |
| StickerSets.ApiWrap.DropRecent | Telegram/SourceFiles/apiwrap.cpp:1583-1590 | erasing while iterating keeps the other recent stickers in order |
| StickerProtocol.StepInv | Telegram/SourceFiles/apiwrap.cpp:1461-1521 | saves and replies keep: in flight is only the latest save of each kind, and its reorder is sent exactly when nothing else of it is outstanding |
| StickerProtocol.RunInv | Telegram/SourceFiles/apiwrap.cpp:1461-1521 | over every sequence of saves and replies of the three kinds |
| StickerProtocol.ReorderInFlight | Telegram/SourceFiles/apiwrap.cpp:1511-1521 | a reorder request is in flight only while no install or uninstall of its kind is, it carries the latest save's order, and it is alone |
| StickerProtocol.CancelledSaving | Telegram/SourceFiles/apiwrap.cpp:1468-1473 | the cancellations leave nothing of an earlier save of the kind in flight |
| StickerProtocol.CancelledExact | Telegram/SourceFiles/apiwrap.cpp:1468-1473 | a save cancels exactly what its kind has in flight and the clearings on record |
| StickerProtocol.SavedWire | Telegram/SourceFiles/apiwrap.cpp:1574-1663 | what a save sends is in flight afterwards, one request for each, and of installs and uninstalls of its kind nothing else is |
| StickerProtocol.SavedReorder | Telegram/SourceFiles/apiwrap.cpp:1475-1509 | after a save its reorder is in flight, once, if and only if nothing else was sent and there are at least two sets to order |
| StickerProtocol.RepliedReorder | Telegram/SourceFiles/apiwrap.cpp:1511-1521 | after the reply to an install or uninstall it is in flight, once, if and only if that was the last one outstanding and there are at least two sets to order |
| StickerProtocol.SendOneSaving | Telegram/SourceFiles/apiwrap.cpp:1599-1663 | each request sent while saving is counted and delays the reorder |
| StickerProtocol.FinishedInv | Telegram/SourceFiles/apiwrap.cpp:1721-1725 | a save with nothing outstanding reorders at once |
| StickerProtocol.RepliedInv | Telegram/SourceFiles/apiwrap.cpp:1511-1521 | the last reply, success or failure, sends the reorder |
| DialogsLoad.StepInv | Telegram/SourceFiles/apiwrap.cpp:862-1092 | every request, reply and failure keeps the invariant and leaves finished and dead loads as they are |
| DialogsLoad.RunInv | Telegram/SourceFiles/apiwrap.cpp:862-1092 | hence between any two moments of any run |
| DialogsLoad.OneOfEach | Telegram/SourceFiles/apiwrap.cpp:869-941 | per folder at most one list request and one pinned request are in flight, no list request after the list was received, and the load outlives both, so the unchecked dereference at line 932 is valid; a list request in flight carries the offset of its load |
| DialogsLoad.ReceivedListWaitsForPinned | Telegram/SourceFiles/apiwrap.cpp:1030-1047 | a load that has its list and is still there waits for a pinned request that is in flight |
| DialogsLoad.PostedExactly | Telegram/SourceFiles/apiwrap.cpp:1030-1047 | "list done" has been posted once for each load that was started and has ended |
| DialogsLoad.AtRest | Telegram/SourceFiles/apiwrap.cpp:869-1080 | with nothing in flight a load that is still there has not got its list, waits for no pinned request, and can never finish if and only if its request id is set |
| DialogsLoad.NextPageAsked | Telegram/SourceFiles/apiwrap.cpp:929-964 | after a page of the main list the next one is in flight, behind the offset of that page, unless an exception is to be loaded first or loading is blocked |
| DialogsLoad.ArchiveAsked | Telegram/SourceFiles/apiwrap.cpp:965-970 | once the main list has come, an idle archive that is needed is asked for, behind its own offset |
| DialogsLoad.FolderAsked | Telegram/SourceFiles/apiwrap.cpp:862-892 | asking for a folder that is not being loaded starts at its beginning, for an idle one it goes on where it stopped |
| DialogsLoad.IdleOnlyBecause | Telegram/SourceFiles/apiwrap.cpp:862-970 | over every run, once something has asked for the main list, it is idle only because its request failed later, or its page came later while an exception was to be loaded first or loading was blocked |
| DialogsLoad.RestingMain | Telegram/SourceFiles/apiwrap.cpp:862-970 | so at rest an unfinished main list can never finish, or is idle for one of those reasons |
| DialogsLoad.LimitMovedUnblocks | Telegram/SourceFiles/apiwrap.cpp:1082-1092 | moving the limit back by a slice always lifts the block |
| DialogsLoad.ListIgnoredInv | Telegram/SourceFiles/apiwrap.cpp:896-899 | the one answer that breaks this: after "not modified" the request id stays set and the load can never finish |
| DialogsLoad.NotModifiedRun | Telegram/SourceFiles/apiwrap.cpp:896-899 | a run of two steps from the start that ends there |
| DialogsLoad.BlockedIsQuiet | Telegram/SourceFiles/apiwrap.cpp:943-953 | while the main list is blocked by date no request for it is in flight |
| DialogsLoad.ListAppliedInv | Telegram/SourceFiles/apiwrap.cpp:894-912 | a load is dead after an answer to its list request if and only if the answer was "not modified" |
| DialogsLoad.MoreAskedInv | Telegram/SourceFiles/apiwrap.cpp:869-941 | asking for more sends the pinned request with the first list request, and keeps the invariant |
| DialogsLoad.PinnedDoneInv | Telegram/SourceFiles/apiwrap.cpp:1049-1060 | a pinned reply finds its load, and finishes it if the list is there |
| DialogsLoad.NextOffset | Telegram/SourceFiles/apiwrap.cpp:975-1020 | the date is that of the last dialog whose top message is listed with a date, while id and peer come from the last usable dialog, which may be a later one |
| DialogsLoad.OneDialogExactlyWhen | Telegram/SourceFiles/apiwrap.cpp:975-1020 | date, message and peer come from one dialog if and only if the last usable dialog has its top message listed with a date, or there are usable dialogs and none of them has; in the second case there is no date |
| DialogsLoad.MixedOffset | Telegram/SourceFiles/apiwrap.cpp:981-1012 | and they do mix: two dialogs of which only the first is listed give the date of the first with the message and peer of the second |
| DialogsLoad.ListedDate | Telegram/SourceFiles/apiwrap.cpp:993-1002 | the date of the last listed copy of the dialog's top message, 0 if there is none |
| DialogsLoad.ApiWrap.RequestDialogs | Telegram/SourceFiles/apiwrap.cpp:862-867 | a folder without a load starts one; the main list is loaded once |
| DialogsLoad.ApiWrap.RequestMoreDialogs | Telegram/SourceFiles/apiwrap.cpp:869-941 | what is sent and when nothing is: no load, a request out, or blocked by date |
| DialogsLoad.ApiWrap.ApplyList | Telegram/SourceFiles/apiwrap.cpp:894-912 | the effect of each of the three answers, with the offset of a slice |
| DialogsLoad.ApiWrap.GotList | Telegram/SourceFiles/apiwrap.cpp:894-930 | the answer's effect and then the request it leads to |
| DialogsLoad.ApiWrap.ListFailed | Telegram/SourceFiles/apiwrap.cpp:931-933 | only the request id is cleared |
| DialogsLoad.ApiWrap.RequestPinnedDialogs | Telegram/SourceFiles/apiwrap.cpp:1049-1080 | sends unless received or under way, and restores the invariant for its folder |
| DialogsLoad.ApiWrap.FinishPinned | Telegram/SourceFiles/apiwrap.cpp:1055-1061 | reply and failure alike count as received |
| DialogsLoad.ApiWrap.RequestMoreDialogsIfNeeded | Telegram/SourceFiles/apiwrap.cpp:955-973 | the main list as long as it has not come, then the archive |
| DialogsLoad.ApiWrap.RequestMoreBlockedByDateDialogs | Telegram/SourceFiles/apiwrap.cpp:1082-1092 | moves the limit back one slice and asks again |
| ForwardMessages.ForwardMessages | Telegram/SourceFiles/apiwrap.cpp:3334-3420 | the requests are the maximal runs of the draft by source, in order and with ids and random ids aligned; local copies are recorded, with the local id drawn, with the request of their own message; the shared counter equals the number of requests when the call returns |
| ForwardMessages.RunsUnique | Telegram/SourceFiles/apiwrap.cpp:3383-3418 | a draft has only one division into maximal runs, so that statement fixes every request |
| ForwardMessages.CallbackExact | Telegram/SourceFiles/apiwrap.cpp:3341-3346 | however the replies are ordered, the success callback runs at most once, and it has run if and only if every request has succeeded; one failure silences it for good |
| ForwardMessages.StepInv | Telegram/SourceFiles/apiwrap.cpp:3341-3375 | the counter is the number of requests that are waiting or failed |
| ForwardMessages.RunInv | Telegram/SourceFiles/apiwrap.cpp:3341-3375 | after any replies |
| ForwardMessages.LastRun | Telegram/SourceFiles/apiwrap.cpp:3410-3418 | cutting the last run off the draft leaves the runs of the rest, which ends in another source |
| ForwardMessages.NewSource | Telegram/SourceFiles/apiwrap.cpp:3412-3416 | a change of source closes the gathered batch |
| ForwardMessages.SharedCallback.RequestDone | Telegram/SourceFiles/apiwrap.cpp:3360-3364 | a success counts down and fires at zero |
| PremiumRequired.StepInv | Telegram/SourceFiles/api/api_premium.cpp:384-444 | waiting users have a call queued or a request in flight, at most a hundred users are in flight, at most one call is queued |
| PremiumRequired.RunInv | Telegram/SourceFiles/api/api_premium.cpp:384-444 | in every reachable state; and exactly the users that some event asked about wait, are being asked for, or are known |
| PremiumRequired.AllKnownAtRest | Telegram/SourceFiles/api/api_premium.cpp:384-444 | once no call is queued and nothing is in flight, everyone ever asked about is known |
| PremiumRequired.StepSettles | Telegram/SourceFiles/api/api_premium.cpp:384-444 | asking settles a user whatever is in flight, nothing unsettles one, only waiting users are sent, and flags change by a reply only |
| PremiumRequired.AnswerPerUser | Telegram/SourceFiles/api/api_premium.cpp:415-434 | answer k goes to the k-th user sent, a missing answer counts as not required, all of them become known, nobody else changes |
| PremiumRequired.OneRound | Telegram/SourceFiles/api/api_premium.cpp:395-444 | one request and reply takes the first hundred waiting users away and nobody else, and each of them is known with the answer at its place |
| PremiumRequired.Drains | Telegram/SourceFiles/api/api_premium.cpp:395-444 | with no new arrivals n users are drained by ceil(n / 100) replies and by no fewer |
| PremiumRequired.InsertedSorted | Telegram/SourceFiles/api/api_premium.cpp:385 | inserting keeps the set sorted and adds exactly one user |
| PremiumRequired.Premium.ResolvePremiumRequired | Telegram/SourceFiles/api/api_premium.cpp:384-393 | adds the user and queues a call unless one is queued or a request is out |
| PremiumRequired.Premium.RequestPremiumRequiredSlice | Telegram/SourceFiles/api/api_premium.cpp:395-414 | moves the first hundred users to the request |
| PremiumRequired.Premium.Finish | Telegram/SourceFiles/api/api_premium.cpp:415-444 | applies the answers in order, a failure being an empty list, and queues the next call |
| InviteLinks.StepExact | Telegram/SourceFiles/api/api_invite_links.cpp:162-707 | for every operation, the cache stays right (a live permanent link is first, alone, and the one last written) if and only if the server's data meets the stated condition |
| InviteLinks.RunInv | Telegram/SourceFiles/api/api_invite_links.cpp:162-707 | over every run whose data meets it |
| InviteLinks.FaithfulRunInv | Telegram/SourceFiles/api/api_invite_links.cpp:162-707 | over every run of a server that edits the link it was asked to, lists at most one live permanent link and never changes a permanence or undoes a revocation |
| InviteLinks.AllHeard | Telegram/SourceFiles/api/api_invite_links.cpp:162-707 | every cached link is one the server sent, in text, permanence and revocation |
| InviteLinks.TwoLiveBreak | Telegram/SourceFiles/api/api_invite_links.cpp:433-440 | and the condition can fail: a first page with two live permanent links leaves both in the cache |
| InviteLinks.FaithfulEditRespected | Telegram/SourceFiles/api/api_invite_links.cpp:279-304 | edits that keep a link's text and permanence and never undo a revocation meet it |
| InviteLinks.FaithfulUpdateRespected | Telegram/SourceFiles/api/api_invite_links.cpp:522-531 | so do external updates of that kind |
| InviteLinks.FrontedExact | Telegram/SourceFiles/api/api_invite_links.cpp:28-36 | rotating puts a live permanent link first and alone if and only if the list had at most one |
| InviteLinks.FrontedKeeps | Telegram/SourceFiles/api/api_invite_links.cpp:28-36 | rotating loses nothing and keeps the order of the links that are not live permanent ones |
| InviteLinks.FrontedPlaces | Telegram/SourceFiles/api/api_invite_links.cpp:28-36 | where each link goes, also when several are live: the first live permanent one to the front, those before it back by one, those behind it nowhere |
| InviteLinks.NotLiveExact | Telegram/SourceFiles/api/api_invite_links.cpp:38-43 | no live permanent link is left after removal |
| InviteLinks.CreatedExact | Telegram/SourceFiles/api/api_invite_links.cpp:162-205 | a created link is cached in front, or behind the live permanent link that it does not replace; the others stay in order; count and written text |
| InviteLinks.EditedPlaces | Telegram/SourceFiles/api/api_invite_links.cpp:279-304 | an edit removes the first link with that text if it revokes it, and otherwise puts the new data in its place; no other link changes |
| InviteLinks.ListedExact | Telegram/SourceFiles/api/api_invite_links.cpp:426-451 | what a first page leaves in the cache, with or without a live permanent link known before |
| InviteLinks.SetExact | Telegram/SourceFiles/api/api_invite_links.cpp:633-663 | the permanent link just set is in front, with the usage just heard, and the others stay in order |
| InviteLinks.NotNamedFiltered | Telegram/SourceFiles/api/api_invite_links.cpp:732-738 | leaving out a text goes link by link, in place and with repetitions |
| InviteLinks.NotLiveFiltered | Telegram/SourceFiles/api/api_invite_links.cpp:38-43 | so does leaving out live permanent links |
| InviteLinks.EditExact | Telegram/SourceFiles/api/api_invite_links.cpp:279-304 | when exactly an edit keeps the discipline, revocations included |
| InviteLinks.ReplacedExact | Telegram/SourceFiles/api/api_invite_links.cpp:522-531 | when exactly an external update does |
| InviteLinks.InviteLinksCache.LookupMyPermanent | Telegram/SourceFiles/api/api_invite_links.cpp:124-141 | where the discipline holds, looking at the first link only finds exactly the live permanent link of the whole list, or none if there is none |
| InviteLinks.InviteLinksCache.PrependMyToFirstSlice | Telegram/SourceFiles/api/api_invite_links.cpp:162-205 | a new permanent link replaces the live one in front; another link goes behind it |
| InviteLinks.InviteLinksCache.GotEdit | Telegram/SourceFiles/api/api_invite_links.cpp:279-319 | the reply to an edit, with the replacement of a revoked permanent link |
| InviteLinks.InviteLinksCache.GotMyLinks | Telegram/SourceFiles/api/api_invite_links.cpp:426-451 | the first page, merged with the permanent link known before |
| InviteLinks.InviteLinksCache.ApplyExternalUpdate | Telegram/SourceFiles/api/api_invite_links.cpp:522-531 | every copy with that text is replaced |
| InviteLinks.InviteLinksCache.SetMyPermanent | Telegram/SourceFiles/api/api_invite_links.cpp:620-676 | a new permanent link takes the place of the live one in front; the same link again only updates its usage; a link that is not permanent changes nothing |
| InviteLinks.InviteLinksCache.ClearMyPermanent | Telegram/SourceFiles/api/api_invite_links.cpp:678-707 | drops the live permanent link in front and writes an empty one; without one nothing changes |
| InviteLinks.InviteLinksCache.ParseSlice | Telegram/SourceFiles/api/api_invite_links.cpp:721-741 | a copy of the permanent link is left out of the page |
| SearchToken.TokenExact | Telegram/SourceFiles/api/api_messages_search.cpp:47-62 | on requests without line breaks in query and tag texts, two requests share a token if and only if they differ in nothing but blank tags: the paid reaction, document 0 and the empty text, of which the token shows nothing |
| SearchToken.CollidesExactlyWhen | Telegram/SourceFiles/api/api_messages_search.cpp:53-60 | so a line-free request shares its token with another line-free one if and only if it has a blank tag |
| SearchToken.BreaksCollideExactlyWhen | Telegram/SourceFiles/api/api_messages_search.cpp:47-62 | for every request, line breaks or not: it shares its token with another if and only if it names a peer or a tag, or a break of its query is followed by what a peer or a tag would print |
| SearchToken.TagTextRead | Telegram/SourceFiles/api/api_messages_search.cpp:53-60 | what a tag prints: `custom` and a number of 64 bits that is not 0, or `emoji` and any text but the paid one |
| SearchToken.SentApart | Telegram/SourceFiles/data/data_message_reaction_id.cpp:83-93 | tags that print the same are still sent to the server as different reactions |
| SearchToken.RequestToToken | Telegram/SourceFiles/api/api_messages_search.cpp:47-62 | the loop builds the pieces of the token joined by line breaks |
| SearchToken.JoinInjective | Telegram/SourceFiles/api/api_messages_search.cpp:49-60 | lines joined by line breaks can be split again |
| SearchToken.TagTextExact | Telegram/SourceFiles/data/data_message_reaction_id.h:34-43 | `custom()` and `emoji()` print two tags alike if and only if they are equal or both blank |
| SearchToken.PiecesExact | Telegram/SourceFiles/api/api_messages_search.cpp:50-60 | a peer number, a custom tag and an emoji tag are never mistaken for one another |
| SearchToken.NumberInjective | Telegram/SourceFiles/api/api_messages_search.cpp:51 | decimal numbers without leading zeros name one number |
| MessagesSearch.StepInv | Telegram/SourceFiles/api/api_messages_search.cpp:75-206 | each cached page was received for a first-page request with its token, and the request in flight under the current number is the current one |
| MessagesSearch.RunInv | Telegram/SourceFiles/api/api_messages_search.cpp:75-206 | in every run; so while only line-free texts are searched, a page is served that was not received for the request only if the request has a blank tag |
| MessagesSearch.CacheHitExact | Telegram/SourceFiles/api/api_messages_search.cpp:90-97 | if no searched text holds a line break, a page taken from the cache was received for a request that differs from the one searched now in blank tags only; for exactly that one if it has none |
| MessagesSearch.MisservedExactlyWhen | Telegram/SourceFiles/api/api_messages_search.cpp:90-97 | for a line-free request some run with line-free texts serves a page never received for it if and only if it has a blank tag |
| MessagesSearch.MisservedAfterBreaksExactlyWhen | Telegram/SourceFiles/api/api_messages_search.cpp:90-97 | for every request some run, line breaks allowed, does so if and only if it names a peer or a tag, or a break of its query is followed by what one would print |
| MessagesSearch.HistoryItemsFromTL | Telegram/SourceFiles/api/api_messages_search.cpp:25-45 | the messages with a date whose peer is loaded, in order |
| MessagesSearch.ItemsFiltered | Telegram/SourceFiles/api/api_messages_search.cpp:25-45 | messages become items one by one, in place: if their peer is loaded and they have a date |
| MessagesSearch.SearchGoes | Telegram/SourceFiles/api/api_messages_search.cpp:75-146 | a search shows the cached first page at once, or its request is in flight from the start under the current number |
| MessagesSearch.ReplyShown | Telegram/SourceFiles/api/api_messages_search.cpp:148-206 | the reply to the current request is shown with the server's total, cached if it is a first page, and the next page starts behind its last item |
| MessagesSearch.MoreGoes | Telegram/SourceFiles/api/api_messages_search.cpp:81-141 | more asks for exactly that page of the same request |
| MessagesSearch.EndRestarts | Telegram/SourceFiles/api/api_messages_search.cpp:88-97 | after a page without items more shows the first page again |
| MessagesSearch.StaleReplyIgnored | Telegram/SourceFiles/api/api_messages_search.cpp:152-154 | a reply to anything but the current request changes neither cache, offset nor current number, and fires nothing |
| MessagesSearch.Search.SearchReceived | Telegram/SourceFiles/api/api_messages_search.cpp:148-206 | the page is cached under its token if it is a first page not cached yet; the total counts what the server sent, the list only what became an item, and the offset is the last item of that list |
| MessagesSearch.Search.SearchRequest | Telegram/SourceFiles/api/api_messages_search.cpp:88-146 | a first page comes from the cache if it is there, otherwise one request goes out |
| MessagesSearch.Search.SearchMessages | Telegram/SourceFiles/api/api_messages_search.cpp:75-79 | a new search starts from the first page and makes any older reply stale |
| MessagesSearch.Search.SearchMore | Telegram/SourceFiles/api/api_messages_search.cpp:81-86 | no second request while one is out |
| ListHash.UpdateBijective | Telegram/SourceFiles/api/api_hash.h:40-45 | `HashUpdate` is a bijection of the running state for each value, with an explicit inverse, and of the value for each state |
| ListHash.MixBijective | Telegram/SourceFiles/api/api_hash.h:41-43 | the three shift steps together are undone by an explicit inverse, from both sides |
| ListHash.OneDifferenceNeverCollides | Telegram/SourceFiles/api/api_hash.h:63-70 | lists that differ in exactly one position never have the same hash |
| ListHash.UnhashHashed | Telegram/SourceFiles/api/api_hash.h:63-70 | the start state can be recovered from the hash and the list |
| ListHash.HashedConcat | Telegram/SourceFiles/api/api_hash.h:63-70 | hashing a concatenation is hashing its second part from the state after the first |
| ListHash.CountRange | Telegram/SourceFiles/api/api_hash.h:63-70 | the loop is the fold |
| ListHash.CountStickersOrderHash | Telegram/SourceFiles/api/api_hash.cpp:38-61 | the hash of the filtered list of set hashes, or 0 if the default set is among them and the check is asked for |
| ListHash.SetHashesFiltered | Telegram/SourceFiles/api/api_hash.cpp:46-57 | the filter goes set by set, in place: stored, neither special nor archived, and not the default set |
| ListHash.CountFeaturedHash | Telegram/SourceFiles/api/api_hash.cpp:63-78 | the hash of the flattened list in which an unread set is followed by 1 |
| ListHash.FlattenedInjective | Telegram/SourceFiles/api/api_hash.cpp:68-75 | two orders without the identifier 1 that flatten alike are equal, with equal unread marks |
| ListHash.AmbiguousExactlyWhen | Telegram/SourceFiles/api/api_hash.cpp:68-75 | the list leaves open which order and marks it came from if and only if it marks some set unread, or every occurrence of some set, read from the front, is followed by a set 1 that can be its mark |
| ListHash.AmbiguousWithoutOne | Telegram/SourceFiles/api/api_hash.cpp:68-75 | without an identifier 1: if and only if it marks some set unread, since the flattened list is itself an order of read sets |
| ListHash.FeaturedCollision | Telegram/SourceFiles/api/api_hash.cpp:68-75 | the smallest case: an unread set x and the two read sets x and 1 give the same list |
| BlockedPeers.StepInv | Telegram/SourceFiles/api/api_blocked_peers.cpp:75-187 | the total is at least the list size, an entry belongs to a request in flight to its own peer, only unblocking entries hold callbacks, and each callback is held once or has run |
| BlockedPeers.RunInv | Telegram/SourceFiles/api/api_blocked_peers.cpp:75-187 | in every run |
| BlockedPeers.AllRepliedAllFired | Telegram/SourceFiles/api/api_blocked_peers.cpp:75-187 | each callback runs at most once under any interleaving of stale and fresh replies, and exactly once when all replies have come |
| BlockedPeers.MishearsExactlyWhen | Telegram/SourceFiles/api/api_blocked_peers.cpp:75-187 | the next step can run a stored callback while its own request is still in flight if and only if the peer is not blocked or another request for it is in flight |
| BlockedPeers.HearsOwnOutcome | Telegram/SourceFiles/api/api_blocked_peers.cpp:75-187 | over every run in which that stays false, the callback is still stored for its request, or it was told the success of the reply to exactly that request |
| BlockedPeers.KeptOrExposed | Telegram/SourceFiles/api/api_blocked_peers.cpp:75-187 | while that is false, no event but the reply to its own request touches a stored callback or its entry |
| BlockedPeers.StaleReplyMisreports | Telegram/SourceFiles/api/api_blocked_peers.cpp:87-101 | block, unblock with a callback, reply to the block: the callback hears failure although the unblock then succeeds |
| BlockedPeers.OppositeCallMisreports | Telegram/SourceFiles/api/api_blocked_peers.cpp:180-184 | unblock with a callback, block: it hears failure with its request in flight and no reply at all |
| BlockedPeers.StaleReplyPromises | Telegram/SourceFiles/api/api_blocked_peers.cpp:131-151 | unblock, block, unblock with a callback, reply to the first: it hears success with its own request in flight |
| BlockedPeers.SentInv | Telegram/SourceFiles/api/api_blocked_peers.cpp:168-187 | an opposite request fires the callbacks of the entry it replaces before it takes its place |
| BlockedPeers.RepliedInv | Telegram/SourceFiles/api/api_blocked_peers.cpp:87-107 | a reply, stale or not, takes at most one entry and never counts the total below the list |
| BlockedPeers.BlockGoes | Telegram/SourceFiles/api/api_blocked_peers.cpp:75-114 | unless the peer is blocked already, a request to block it is in flight under its entry afterwards, a new one only if there was none |
| BlockedPeers.UnblockGoes | Telegram/SourceFiles/api/api_blocked_peers.cpp:116-166 | so for unblocking, and the callback passed in is stored under that entry |
| BlockedPeers.RepliedGoes | Telegram/SourceFiles/api/api_blocked_peers.cpp:87-158 | a reply takes its request off the network and the peer's entry away; a success moves that peer and nobody else |
| BlockedPeers.ErasedFirst | Telegram/SourceFiles/api/api_blocked_peers.cpp:136-141 | the first item of the peer leaves the list, and nothing else |
| BlockedPeers.ErasedNone | Telegram/SourceFiles/api/api_blocked_peers.cpp:136-141 | a list without the peer stays as it is |
| BlockedPeers.TokensPassedIn | Telegram/SourceFiles/api/api_blocked_peers.cpp:116-187 | the callbacks counted in a run are exactly those that its calls pass in |
| BlockedPeers.BlockedPeersApi.BlockPeer | Telegram/SourceFiles/api/api_blocked_peers.cpp:75-114 | blocked already, same request out, or a new request |
| BlockedPeers.BlockedPeersApi.UnblockPeer | Telegram/SourceFiles/api/api_blocked_peers.cpp:116-166 | the same for unblocking, with `force` and the callback |
| BlockedPeers.BlockedPeersApi.BlockAlreadySent | Telegram/SourceFiles/api/api_blocked_peers.cpp:168-187 | joins a request of the same direction, replaces an opposite one |
| BlockedPeers.BlockedPeersApi.Finish | Telegram/SourceFiles/api/api_blocked_peers.cpp:87-112 | success and failure of either direction: entry, flag, list and total |
| BlockedPeers.BlockedPeersApi.GotBlocked | Telegram/SourceFiles/api/api_blocked_peers.cpp:24-40 | the total of a loaded slice is never below its list |
| BlockedReentrant.StepKeeps | Telegram/SourceFiles/api/api_blocked_peers.cpp:75-187 | callbacks may block and unblock again from inside the call or reply that runs them: every entry still belongs to a request in flight for its peer, only unblocking entries hold callbacks, the total is at least the list size, and each callback is stored, held by a call in progress, or has run |
| BlockedReentrant.ReentrantRunInv | Telegram/SourceFiles/api/api_blocked_peers.cpp:75-187 | in every run, however deeply the calls are nested |
| BlockedReentrant.AllAnsweredAllRun | Telegram/SourceFiles/api/api_blocked_peers.cpp:75-187 | each callback still runs at most once, and exactly once when no call is in progress and all replies have come |
| BlockedReentrant.ResumedInv | Telegram/SourceFiles/api/api_blocked_peers.cpp:159-165 | when an unblocking call goes on after the callbacks of the entry it replaced, the peer has no entry, so its callback is stored in an entry of its own |
| BlockedReentrant.NewestKeptExactlyWhen | Telegram/SourceFiles/api/api_blocked_peers.cpp:110-113 | what is lost: the entry of a peer belongs to its latest request until a call ends into which a callback has cut with an entry for the same peer, and exactly then no longer |
| BlockedReentrant.CallbackOvertaken | Telegram/SourceFiles/api/api_blocked_peers.cpp:110-113 | and that happens: the callback of a replaced entry unblocks again, the outer block is sent last, and the entry says that the peer is being unblocked |
| BlockedReentrant.QuietBlock | Telegram/SourceFiles/api/api_blocked_peers.cpp:75-114 | with callbacks that do not call again the single moves of `block` add up to the step of `BlockedPeers` |
| BlockedReentrant.QuietUnblock | Telegram/SourceFiles/api/api_blocked_peers.cpp:116-166 | and those of `unblock` |
| BlockedReentrant.QuietAnswer | Telegram/SourceFiles/api/api_blocked_peers.cpp:87-107 | and those of a reply |
| SendProgress.ThrottleExact | Telegram/SourceFiles/api/api_send_progress.cpp:87-111 | after the last accepted update of a key, the next update passes if and only if one interval has gone by, and a stop if and only if two have not |
| SendProgress.SpacedApart | Telegram/SourceFiles/api/api_send_progress.cpp:87-111 | accepted updates of a key are an interval apart unless a stop passed between them |
| SendProgress.WindowCount | Telegram/SourceFiles/api/api_send_progress.cpp:87-111 | so a window of length T holds at most T / interval + 1 of them |
| SendProgress.MinuteCount | Telegram/SourceFiles/api/api_send_progress.cpp:24-25 | at most 13 typing and 21 speaking notifications a minute |
| SendProgress.UpdatedExact | Telegram/SourceFiles/api/api_send_progress.cpp:64-152 | an accepted action that is not skipped puts its request in flight under its key, an accepted stop leaves none of the key, a refused call changes nothing, and other keys are never touched |
| SendProgress.CancelledExact | Telegram/SourceFiles/api/api_send_progress.cpp:41-50 | a cancel takes exactly the request of its key off the network |
| SendProgress.FirstAccepted | Telegram/SourceFiles/api/api_send_progress.cpp:92-93 | the first update of a key passes, and no stop does before it |
| SendProgress.RunThrottle | Telegram/SourceFiles/api/api_send_progress.cpp:64-85 | cancels, replies and skipped requests never touch the throttle |
| SendProgress.StepInv | Telegram/SourceFiles/api/api_send_progress.cpp:41-50 | no two keys share a request id, and each request in flight can be found, so cancelled, by its key |
| SendProgress.RunInv | Telegram/SourceFiles/api/api_send_progress.cpp:41-50 | in every run |
| SendProgress.OnePerKey | Telegram/SourceFiles/api/api_send_progress.cpp:76-84 | at most one request per key is in flight |
| SendProgress.SendProgressManager.Update | Telegram/SourceFiles/api/api_send_progress.cpp:64-85 | which chats are left alone; an accepted call cancels the key's request and an action sends a new one |
| SendProgress.SendProgressManager.CheckUpdated | Telegram/SourceFiles/api/api_send_progress.cpp:87-111 | the decision and the table after it |
| SendProgress.SendProgressManager.Done | Telegram/SourceFiles/api/api_send_progress.cpp:179-186 | stopping at the first match removes every entry with that id |

## Left out

- HashSha1: nothing is stated for inputs of 2^32 - 64 bytes and more, where `block + 64` wraps around; between 2^29 and that bound the result is stated over the packer's padding, and that the digest then differs from SHA-1 is not claimed, since two paddings could collide. The data is a value, so an output buffer that overlaps the input is not modelled.
- Flatten: the later check that every path starts with the removed prefix, option parsing, RSA, LZMA and OpenSSL are not part of this model.
- PlanUpdate: the tree is finite and fixed and its entries are given in the order they are read, without the two entries `.` and `..` that the walk skips; creating directories, copying, deleting and symbolic links are left out, as is the Windows updater, which repeats the walk.
- ResolveMessageDatas: what the replies contain is left out; a callback's effect is the sequence of registrations it makes.
- ResolveWebPages: that the timer, once it fires, is off and starts a pass is taken from the outside; the timer itself is not part of this model.
- SaveStickerSets: writing to local storage and the reload after a failed reorder are left out; a set's own id is the key it is stored under.
- GotList: what the dialogs and messages contain beyond ids, peers and dates is left out; the pointer of the main list and the map of folders are one map.
- ForwardMessages: message flags and the contents of local messages are left out; a request is handed to the network when it is accumulated. Albums depend on code that is not part of this model.
- GotMyLinks: callbacks, update streams, lists of joined users, and the link count are left out; the count can differ from the list's size, because setting a permanent link adds to the list without counting it.
- SearchRequest: the request is dispatched at once; deferred dispatch and the merged search are not part of this model. Which peers are loaded when messages become items is a parameter.
- CountRange: the widening overloads of `HashUpdate` and the hash over documents are left out, being the same fold over other lists.
- BlockPeer: the methods run callbacks that do not call again; calls from inside callbacks are modelled on values, as moves of a machine with a stack of calls. Requests for further pages are left out.
- Update: whether a user is worth notifying (`skipRequest`, ghost mode) is one boolean, and the timer that cancels typing is the cancel step.
- MTProto serialisation, texts, notifications and the user interface are left out throughout, as are the thin request wrappers, which hold no hard property.
