# Verified model of the ZenClaw agent core

A Dafny model of the stateful core of the agent and of its codecs, with proofs of what they keep on every run.
`dafny verify dfyconfig.toml` checks the whole project.

What is modelled:

- **Replicator** (`Replicator*.dfy`). Producers and one drainer share a mutex and one condition variable. The critical
  sections are methods of a class; a step system over program counters and wait sets gives every interleaving.
- **Cloud session log** (`SessionKeys`, `CloudCache`, `SessionLog`, `SessionEntries`, `SessionTree`, `Sessions`,
  `SessionHistory`, `Compaction`). A chat is a base file, numbered logs and an absorbed marker that must read as one
  append-only stream, with a parent-pointer tree of entries on top.
- **Sessions behind the replicator** (`ReplicatedSessions`, `CoalescedWrites`, `CoalescedSessions`, `MarkerRaces`). What a
  crash leaves of a chat when its writes are queued, coalesced and retried on their way to the store. Sessions write a base
  before its marker, but in the queue the marker can pass it (`MarkerRaces.StoredLinesCanBeUnread`).
- **Boot and lazy restore** (`ObjectStore`, `Boot`, `RestoredChats`). The cache is rebuilt from a store whose operations
  may fail, and what a restore that broke off reads as.
- **Telegram renderer** (`HtmlTokens`, `HtmlText`, `SplitBlock`, `ChunkBlocks`, `HtmlNesting`, `Markdown*`,
  `LongLinks`). Markdown becomes well-formed HTML that is split without losing styled text.
- **Agent loop and loop detector** (`ToolLoop*`, `AgentLoop`, `AgentRuns`, `Gateway`, `Conversations`). The transcript and
  event protocol around an arbitrary model, arbitrary tools and an arbitrary cancel flag, and what is remembered of a turn.
- **Codecs** (`Crc32`, `NvsPage`, `NvsReader`, `LittleEndian`, `Snapshots`, `ToolRecovery`, `RunnerScan`, `WebText`,
  `Memory*`) and the **job scheduler** (`Cron`).

Code that changes state step by step is a class or a method with loops, proved against specification functions; what the
program promises is then proved of those functions. `Base.dfy` holds shared types and `Text.dfy` shared string
functions.

Parameters stand for what the model does not decide: the JSON library (`LineFormat`, `World.parse`, `Tools.build`,
`BootConfig.validJsonl`), UTF-8 validity, `char::is_alphanumeric`, the wording of advice, the narrative heuristic, and the
outcome of every network operation. Theorems hold for every value of them; the session theorems need the line format to be
faithful (one entry is one line that parses back to itself).

Where comments in the code and the code differ, the model follows the code:

- `enqueue` says it blocks until the depth drops below half the cap; it blocks until the depth is below the cap
  (agent/src/core/cloud/replicator.rs:79-85).
- `clear` says it drops the keys of the chat; it looks under `sessions/` while they live under `sys/sessions/`
  (agent/src/core/sessions/mod.rs:816-827, 475-477). `SessionHistory.ClearEmptiesOnlyTheEmpty` says what that means.
- `split_block` and `render_telegram` promise pieces within the limit; `SplitBlocks.SplitBlock` and
  `MarkdownBlocks.RenderTelegram` say exactly when that holds, and `LongLinks.LongLinksFitExactly` gives inputs that
  break it.
- The retry count of a dead letter and the wrap of its `u8` are those of a release build.
- `CronStore::update` promises to roll back; after `apply_job_result` it rolls back to the job already changed.
- `serializeMemoryFile` says untouched entries round-trip; a content read from a file with doubled carriage returns holds
  a CRLF and is changed by saving (`MemoryFiles.SavingCanChangeContent`, `SavingKeepsBlocks`).

## Model

| member | source | states |
|---|---|---|
| `Replicator.ReplicatorState.Enqueue` | agent/src/core/cloud/replicator.rs:80-97 | One critical section of `enqueue`: waits exactly when the queue is at the cap and nothing is stopping, drops the write exactly when stopping, else coalesces into the first entry of the key (keeping its place and retry count) or pushes to the back. |
| `Replicator.ReplicatorState.Take` | agent/src/core/cloud/replicator.rs:141-148 | One critical section of the drainer: sleeps exactly on an empty queue that is not stopping, exits exactly on an empty queue that is stopping, else takes the front. |
| `Replicator.ReplicatorState.Requeue` | agent/src/core/cloud/replicator.rs:175-176 | A failed write goes back to the front, whatever the cap and whatever was queued meanwhile. |
| `Replicator.ReplicatorState.Bury` | agent/src/core/cloud/replicator.rs:159-167 | A dead letter carries key, bytes, message and the retry count less one. |
| `Replicator.ReplicatorState.Stop` | agent/src/core/cloud/replicator.rs:103-107 | Stopping changes the flag and nothing else. |
| `ReplicatorWakeups.EveryRunIsSound` | agent/src/core/cloud/replicator.rs:80-180 | For every number of producers and every interleaving with a positive cap: a sleeping drainer implies an empty queue, no stop and no sleeping producer; a sleeping producer implies a full queue or a drainer about to notify all; queue and write in flight together are at most the cap plus one; the drainer has exited only with an empty queue. |
| `ReplicatorWakeups.SomeThreadCanMove` | agent/src/core/cloud/replicator.rs:80-180 | In every reachable state with a blocked producer or a queued write some step of the drainer is enabled, so the system never deadlocks; calls, `stop` and spurious wakeups are not counted as steps. |
| `ReplicatorWakeups.BlockedEnqueueIsWoken` | agent/src/core/cloud/replicator.rs:83-85 | Bounded service: while a producer stays blocked the drainer takes at most three steps, and the next one is enabled; so every blocked `enqueue` is woken by the fourth drainer step at the latest, whatever the store, the other producers and the scheduler do. Woken, it checks the queue again. |
| `ReplicatorWakeups.ZeroCapDeadlocks` | agent/src/core/cloud/replicator.rs:83-85 | Counterexample: with a cap of zero a producer and the drainer both sleep for ever. |
| `ReplicatorWakeups.WakeupsAreSafeExactlyWithACap` | agent/src/core/cloud/replicator.rs:80-180 | A positive cap is necessary and sufficient for the absence of lost wakeups (below the edge of the `u32` length). |
| `ReplicatorWakeups.QueueCanExceedCap` | agent/src/core/cloud/replicator.rs:175-176 | Counterexample for every positive cap and every positive `retry_max` of a `u8`: the queue itself reaches the cap plus one, since the retry ignores backpressure. |
| `ReplicatorWakeups.CapHoldsExactlyWithoutRetries` | agent/src/core/cloud/replicator.rs:80-180 | On every run of any number of producers the queue stays within the cap if and only if `retry_max` is zero or the cap is (which lets nothing in); below the edge of the `u32` length. |
| `ReplicatorWakeups.StopDrains` | agent/src/core/cloud/replicator.rs:103-107 | After `stop` every drainer step lowers a rank and producers cannot raise it, so the drainer exits after at most that many of its own steps, with an enabled step until then. |
| `ReplicatorTickets.EveryRunIsAccounted` | agent/src/core/cloud/replicator.rs:133-182 | Conservation on every run: each pushed write is in exactly one of queue, flight, store and dead letter; attempts are counted; a dead letter carries exactly `retry_max` retries. |
| `ReplicatorTickets.AttemptsAreBounded` | agent/src/core/cloud/replicator.rs:158-177 | No write is attempted more than `retry_max + 1` times. |
| `ReplicatorTickets.DrainedWritesAreSettled` | agent/src/core/cloud/replicator.rs:133-182 | Once the drainer has exited every pushed write was stored or surfaced as a dead letter, exactly once. |
| `ReplicatorTickets.TopRetryMaxNeverSurfaces` | agent/src/core/cloud/replicator.rs:158-159 | With `retry_max` at the top of its `u8` the retry counter wraps and no write ever becomes a dead letter. |
| `ReplicatorTickets.SurfacesExactlyBelowTheTop` | agent/src/core/cloud/replicator.rs:158-167 | A write that keeps failing surfaces if and only if `retry_max` is below 255. |
| `ReplicatorFreshness.EveryRunKeepsKeysInOrder` | agent/src/core/cloud/replicator.rs:87-95 | On every run queue keys are distinct while a PUT is in flight, and all but the front are distinct otherwise. |
| `ReplicatorFreshness.AcceptFreshness` | agent/src/core/cloud/replicator.rs:87-95 | An accepted write keeps the last accepted bytes of every key last in line if and only if it does not coalesce into an entry that is not the last one of its key (or brings the same bytes). |
| `ReplicatorFreshness.StepFreshness` | agent/src/core/cloud/replicator.rs:80-180 | The same for every step of every thread: exactly which steps keep the last accepted bytes last. |
| `ReplicatorFreshness.RunsWithoutStaleCoalescesStayFresh` | agent/src/core/cloud/replicator.rs:80-180 | On every run without such a coalesce, the last accepted bytes of every key are the last to settle. |
| `ReplicatorFreshness.DrainedRunHoldsLastBytes` | agent/src/core/cloud/replicator.rs:133-182 | On such a run, once drained, the store or a dead letter holds the last accepted bytes of every key. |
| `ReplicatorFreshness.RunsWithoutLateRequeuesAreDistinct` | agent/src/core/cloud/replicator.rs:147-179 | If no failing PUT comes back while a newer write of its key is queued, queue keys stay distinct throughout. |
| `ReplicatorFreshness.QuietRetriesSettleLastBytes` | agent/src/core/cloud/replicator.rs:147-179 | On runs where no write of a key arrives during a failing PUT of that key, the drained system holds the last accepted bytes of every key. |
| `ReplicatorFreshness.StaleBytesCanLandLast` | agent/src/core/cloud/replicator.rs:88-91 | Counterexample: a drained run without dead letters whose store does not hold the last accepted bytes. |
| `SessionKeys.LogIndexOfLogKey` | agent/src/core/sessions/mod.rs:494-497 | The number of a log is recovered from its key by prefix, suffix and `parse`, exactly below the `u32` limit. |
| `SessionKeys.LogKeysAreDistinct` | agent/src/core/sessions/mod.rs:494-497 | Different numbers give different log keys, also beyond two digits. |
| `SessionKeys.BaseAndMetaAreNotLogs` | agent/src/core/sessions/mod.rs:479-488 | Base and marker keys are never read as logs. |
| `SessionKeys.ChatsAreDisjoint` | agent/src/core/sessions/mod.rs:99-101 | A key under the prefixes of two chats means the two sanitized ids are equal. |
| `SessionKeys.ParseMarkerOfMarker` | agent/src/core/sessions/mod.rs:500-511 | The absorbed marker reads back as written. |
| `CloudCaching.CloudCache.Get` | agent/src/core/cloud/cache.rs:25-27 | Reads the entry or nothing. |
| `CloudCaching.CloudCache.Put` | agent/src/core/cloud/cache.rs:29-33 | Changes exactly one entry. |
| `CloudCaching.CloudCache.Delete` | agent/src/core/cloud/cache.rs:35-37 | Removes exactly one entry and says whether it was there. |
| `CloudCaching.CloudCache.KeysWithPrefix` | agent/src/core/cloud/cache.rs:39-44 | Lists exactly the keys with the prefix, each once, in any order. |
| `CloudCaching.CloudCache.RestoreFrom` | agent/src/core/cloud/cache.rs:63-67 | Replaces the whole contents. |
| `SessionLog.AppendGrowsText` | agent/src/core/sessions/mod.rs:617-667 | One append, folding or not, grows what the chat reads as by exactly the appended lines. |
| `SessionLog.ChatReadsWhatWasAppended` | agent/src/core/sessions/mod.rs:557-667 | From an empty cache, for every run of appends over any chats and every threshold, base plus unabsorbed logs in numeric order is the concatenation of what was appended to the chat. |
| `SessionLog.AscendingVisitReadsAll` | agent/src/core/sessions/mod.rs:557-583 | Visiting the present unabsorbed logs in ascending order reads every one of them, in numeric order. |
| `SessionLog.LogBytesAll` | agent/src/core/sessions/mod.rs:587-611 | Sizes summed over the logs in any order are the length of the logs read in order. |
| `SessionLog.AppendPutsStayInChat` | agent/src/core/sessions/mod.rs:617-667 | Every write of an append is a key of the chat. |
| `SessionLog.PutsTouchOneChat` | agent/src/core/sessions/mod.rs:475-497 | Writes to one chat leave every chat with another sanitized id as it was. |
| `SessionLog.StoreMirrorsCache` | agent/src/core/sessions/mod.rs:617-667 | Applying all writes in order gives the store the contents of the cache. |
| `SessionLog.CrashStandsInsideOneAppend` | agent/src/core/sessions/mod.rs:617-667 | Any prefix of all writes of a run stands inside a single append. |
| `SessionEntries.LoadAfterEncode` | agent/src/core/sessions/mod.rs:443-469 | Written entries load back in order, in front of whatever follows. |
| `SessionEntries.WholeLinesConcat` | agent/src/core/sessions/mod.rs:443-469 | Loading distributes over texts made of whole lines. |
| `SessionTree.GoodTerminates` | agent/src/core/sessions/mod.rs:768-809 | In every state satisfying the invariant the parent walk ends within as many steps as there are entries. |
| `SessionTree.GoodBranchIsChain` | agent/src/core/sessions/mod.rs:768-809 | The branch is then one chronological parent chain of distinct ids that ends in the leaf, with a compaction at most at the root. |
| `SessionTree.AppendExtendsBranch` | agent/src/core/sessions/mod.rs:677-751 | `append` of a message with a fresh id keeps the invariant and extends the branch by exactly the new entry when it links to the leaf. |
| `SessionTree.CompactKeepsRecentEntries` | agent/src/core/sessions/mod.rs:949-1054 | `compact` does nothing unless the branch is longer than `keep_recent`; otherwise the branch becomes one Compaction followed by the last `keep_recent` entries in order. |
| `SessionTree.EveryRunHasAChainBranch` | agent/src/core/sessions/mod.rs:677-1054 | On every run of appends with fresh ids and compactions the walk terminates and the branch is one parent chain with a Compaction only at index 0. |
| `SessionTree.AppendTerminatesExactlyWithoutCycle` | agent/src/core/sessions/mod.rs:677-809 | After appending any message to a reachable session, fresh id or not, the walk ends if and only if the message is not its own parent and no entry between its parent and the root has its id. |
| `SessionTree.SelfParentNeverEnds` | agent/src/core/sessions/mod.rs:768-809 | Hence a message that is its own parent, appended to any reachable session, is never walked to an end. |
| `SessionTree.RepeatedTailIsInvisible` | agent/src/core/sessions/mod.rs:768-809 | Repeating a tail of the entries that names a leaf changes nothing the branch walk sees, since the id map is last-wins. |
| `SessionTree.SameViewSameBranch` | agent/src/core/sessions/mod.rs:768-809 | The branch depends on the entries only through the id map and the leaf. |
| `Sessions.SessionManager.UnabsorbedIndices` | agent/src/core/sessions/mod.rs:557-583 | Lists exactly the unabsorbed logs present, ascending. |
| `Sessions.SessionManager.ReadChatFromCache` | agent/src/core/sessions/mod.rs:557-583 | Reads the base and the unabsorbed logs in numeric order, whatever order the cache lists its keys in. |
| `Sessions.SessionManager.CloudSessionBytes` | agent/src/core/sessions/mod.rs:587-611 | Is the length of what a reader sees, summed in cache order. |
| `Sessions.SessionManager.Load` | agent/src/core/sessions/mod.rs:443-469 | Parses line by line, skipping blank and malformed lines. |
| `Sessions.SessionManager.GetLeafId` | agent/src/core/sessions/mod.rs:754-765 | The leaf named by the last info entry. |
| `Sessions.SessionManager.BuildIdMap` | agent/src/core/sessions/mod.rs:775-785 | The last entry of an id wins. |
| `Sessions.SessionManager.GetBranch` | agent/src/core/sessions/mod.rs:768-810 | Returns the walk from the leaf to the root, root first. |
| `Sessions.SessionManager.AppendViaCloud` | agent/src/core/sessions/mod.rs:617-637 | Performs exactly the writes of the append specification, into the cache and to the replicator alike. |
| `Sessions.SessionManager.CompactLog` | agent/src/core/sessions/mod.rs:642-667 | Writes base plus log, then the marker, in that order. |
| `Sessions.SessionManager.Append` | agent/src/core/sessions/mod.rs:677-751 | Writes the entry linked to the current leaf, then the new leaf; to the cloud log or to the session file. |
| `Sessions.SessionManager.Compact` | agent/src/core/sessions/mod.rs:949-1054 | Rewrites the session file to the compacted entries and touches nothing else. |
| `Sessions.SessionManager.Delete` | agent/src/core/sessions/mod.rs:870-893 | Drops every cached key of the chat and its file. |
| `Sessions.SessionManager.Clear` | agent/src/core/sessions/mod.rs:820-836 | Drops the keys under a prefix that no chat key has, and the file. |
| `SessionHistory.RunsLoadTheirHistory` | agent/src/core/sessions/mod.rs:443-751 | From an empty cache, for every threshold and every interleaving of chats, each chat loads as exactly the history of its appends. |
| `SessionHistory.PartialAppendReadsAsWhole` | agent/src/core/sessions/mod.rs:617-667 | A store with the first writes of one append, base without marker included, shows the branch walk the state after the append. |
| `SessionHistory.CrashReadsAsAWholeNumberOfAppends` | agent/src/core/sessions/mod.rs:617-667 | After any prefix of all writes of any run, every chat restored from the store shows the branch walk the history of one whole number of appends. |
| `SessionHistory.CrashKeepsTheBranch` | agent/src/core/sessions/mod.rs:617-809 | After such a crash of a run of legal appends, `get_branch` terminates and returns the branch before or after the interrupted append. |
| `ReplicatedSessions.OrderlyRunsStoreInOrder` | agent/src/core/cloud/replicator.rs:80-182 | On every run of the replicator without coalescing and dead letters, failing and retried PUTs included, the store holds at every point a first part of the accepted writes, applied in order. |
| `ReplicatedSessions.ReplicatedCrashKeepsTheBranch` | agent/src/core/cloud/replicator.rs:80-182 | So when the writes of legal appends go through such a run and it stops anywhere, every chat restored from the store has the branch of a whole number of appends, the same for all chats. |
| `CoalescedWrites.RunsAreTracked` | agent/src/core/cloud/replicator.rs:80-182 | On every run without late requeues and dead letters, coalescing and retries included, each stored key has the bytes of one of its writes, no earlier than its last write in front of the oldest pending one; keys begun later are not stored, and every other accepted write is covered by a pending one. |
| `CoalescedSessions.MixedText` | agent/src/core/sessions/mod.rs:557-667 | Whatever later versions of base, marker and active log a store combines, the chat reads as it did after some number of appends, followed by a part that already ended what it read as at an earlier point; earlier than all of them only if the marker is ahead of the base. |
| `CoalescedSessions.CoalescedCrashKeepsTheBranch` | agent/src/core/sessions/mod.rs:617-809 | So when the writes of legal appends go through any run without late requeues and dead letters and it stops anywhere, each chat restored from the store has the branch of a whole number of the appends: of all when everything is stored, of at least those written in front of the oldest pending write unless the stored marker is ahead of the stored base, and then the chat reads as that base. |
| `MarkerRaces.StoredLinesCanBeUnread` | agent/src/core/sessions/mod.rs:642-667 | Counterexample for every chat: while a base is in flight the next log is folded, the new marker coalesces into the queued one and the new base is queued behind; the store then has the marker and the log but not the base, and the chat reads without lines that are stored. |
| `SessionHistory.ClearLeavesCloudText` | agent/src/core/sessions/mod.rs:820-836 | `clear` changes what no cloud chat reads as. |
| `SessionHistory.ClearEmptiesOnlyTheEmpty` | agent/src/core/sessions/mod.rs:820-836 | In the cloud tier a cleared chat is empty if and only if it was empty before. |
| `SessionHistory.DeleteEmptiesOneChat` | agent/src/core/sessions/mod.rs:870-893 | `delete` empties its chat in the cache and leaves the others alone. |
| `Compactions.ShouldCompact` | agent/src/core/compaction.rs:24-43 | Fires exactly when enabled, with more than `keep_recent` messages, and over the byte or the token threshold. |
| `Compactions.EstimatedTokens` | agent/src/core/compaction.rs:45-63 | A quarter of the bytes of contents and serialized tool calls. |
| `Compactions.SelectForSummary` | agent/src/core/compaction.rs:168-186 | Collects the first messages of the branch, all but the last `keep_recent`. |
| `Compactions.SummaryAndKeptCoverExactlyWhenKeptAreMessages` | agent/src/core/compaction.rs:168-186 | Counting messages here and entries in `compact`, the two cover every message once and in order if and only if all kept entries are messages. |
| `Compactions.SummaryThenKeptIsTheBranch` | agent/src/core/compaction.rs:168-186 | In reachable sessions they always do, and the compaction takes place. |
| `Compactions.RunsSummarizeOrKeepEveryMessage` | agent/src/core/compaction.rs:156-227 | On every run of appends and compactions the messages summarized and those kept are all messages of the branch; an earlier summary is neither, as `Conversations.SummariesAreNotReadAgain` says. |
| `ObjectStores.ObjectStore.List` | agent/src/core/cloud/client.rs:63-68 | Exactly the keys with the prefix, in any order, unless it fails. |
| `ObjectStores.ObjectStore.GetRange` | agent/src/core/cloud/client.rs:70-75 | The bytes of the range, unless it fails. |
| `Boots.Measure` | agent/src/core/cloud/boot.rs:246-253 | Sizes of all keys and their total, one HEAD each. |
| `Boots.FetchAll` | agent/src/core/cloud/boot.rs:255-263 | Exactly the keys before the first failing GET are cached: the ones fetched before a failure stay. |
| `Boots.HighestLog` | agent/src/core/cloud/boot.rs:287-297 | A log with the greatest number, the last listed of them, or none if no key is a log. |
| `Boots.KeptIsASuffix` | agent/src/core/cloud/boot.rs:299-318 | What a truncated restore keeps is a suffix of the log within the budget, cut behind a newline when the tail has one. |
| `Boots.Quarantine` | agent/src/core/cloud/boot.rs:338-359 | Only loses session keys and touches nothing outside the chat; when nothing fails every key is moved. |
| `Boots.TailOrQuarantine` | agent/src/core/cloud/boot.rs:275-332 | Either the cache gets the usable tail of a highest log and nothing else, or the chat is quarantined; quarantined without a fault only if no highest log has a usable tail. |
| `Boots.RestoreChat` | agent/src/core/cloud/boot.rs:224-271 | No warning means every session key is cached; over budget the fallback applies to the cache as found; a warning within budget leaves the keys fetched before the failing GET. Without faults there is a warning exactly over budget. |
| `Boots.FullRestoreIsTransparent` | agent/src/core/cloud/boot.rs:255-266 | After a full restore the chat reads as in the store and appends go on at the same log. |
| `Boots.WholeLineIsLostExactly` | agent/src/core/cloud/boot.rs:306-314 | Of the lines in the tail that boot fetches a whole one is lost if and only if the tail begins with one and has a newline: the first line is dropped whether it was cut or not. |
| `Boots.SmallLogLosesItsFirstLine` | agent/src/core/cloud/boot.rs:299-314 | So a log of whole lines that fits the budget loses its first line. |
| `Boots.BootTwice` | agent/src/core/cloud/boot.rs:334-359 | After a quarantine whose operations succeed the next boot gives no warning for the chat; a full restore repeats without one. |
| `Boots.UniqueChatIds` | agent/src/core/cloud/boot.rs:182-197 | Exactly the non-empty ids not starting with a dot. |
| `Boots.BootRestore` | agent/src/core/cloud/boot.rs:91-131 | When nothing fails and every chat is within budget, there are no warnings and the cache has every session key of every chat. |
| `Boots.Hydrate` | agent/src/core/sessions/mod.rs:532-547 | Lazy restore adds only the session keys of the chat that the cache lacks and overwrites none. |
| `Boots.CloudLoadText` | agent/src/core/sessions/mod.rs:520-551 | A chat with cached text is read without the store; otherwise its missing files are fetched and what was cached is kept, and when the operations succeed it reads as those files together. |
| `Boots.DeletedFromTheCacheComesBack` | agent/src/core/sessions/mod.rs:520-551 | After `delete` alone the next read, when the store answers, returns and caches what the store has: the chat reads as nothing if and only if the store has nothing. |
| `Boots.DeleteWithStore` | agent/src/core/sessions/mod.rs:900-919 | When its operations succeed neither cache nor store has text of the chat; no other key of the store changes. |
| `RestoredChats.FallbackHoldsOnlyTheHighestLog` | agent/src/core/cloud/boot.rs:287-331 | A truncated restore into a cache without files of the chat leaves its highest log, cut, and no other file of it. |
| `RestoredChats.TruncatedRestoreRestartsAtZero` | agent/src/core/cloud/boot.rs:322-331 | Such a chat has no marker, so appends go to log 0: for every threshold the next append reads behind the kept text when that was log 0, and in front of it otherwise. |
| `RestoredChats.TruncatedRestoreKeepsOrderExactly` | agent/src/core/cloud/boot.rs:322-331 | So an append reads behind the kept text if and only if the kept log is log 0 or the order of the two texts makes no difference. |
| `RestoredChats.StoreReadsBehindAppend` | agent/src/core/sessions/mod.rs:617-667 | The same append also goes to the store: below the threshold it replaces log 0, which is read only when the store has no marker; else it replaces base and marker, and the store reads as the new base and its logs from 1 on. |
| `RestoredChats.StoreKeepsOldAndNewExactly` | agent/src/core/sessions/mod.rs:617-667 | Behind such an append the store reads as before plus the new lines: without a marker if and only if the fold writes over no base and log 0 was restored uncut, or there was no log 0 and the order of the texts makes no difference; with a marker below the threshold if and only if there are no new lines, and at the threshold if and only if the new base and the logs from 1 on spell the old text and the new lines. |
| `RestoredChats.PartialHydrationReadsTheSameExactly` | agent/src/core/sessions/mod.rs:532-547 | The lazy restore goes on behind a failing GET. With the marker among the fetched files, if there is one, that read is the store text if and only if all of it was fetched, and the next read, when the store answers, if and only if all or nothing of it was fetched; otherwise the chat stays cut. |
| `RestoredChats.TailReadsTheSameExactly` | agent/src/core/cloud/boot.rs:259-269 | A boot within the budget whose GET fails puts the cut highest log over what it fetched. With the marker fetched, if there is one, the chat then reads as in the store if and only if the highest log is absorbed, or nothing was cut off it and all the other text was fetched as well. |
| `RestoredChats.TailWithoutMarkerReadsTheSameExactly` | agent/src/core/cloud/boot.rs:259-269 | With a marker that was not fetched absorbed logs are read again: the chat reads as in the store if and only if the two texts agree, or nothing is read and the highest log is absorbed. |
| `RestoredChats.EmptyTailIsSkipped` | agent/src/core/cloud/boot.rs:306-331 | When the kept text is empty and nothing else is cached, the next read fetches every other file and leaves that log out, which is the store text if and only if the log is absorbed. |
| `RestoredChats.QuarantinedReadsTheSameExactly` | agent/src/core/cloud/boot.rs:328-359 | When the chat is quarantined instead, a reader takes the fetched files, and what the quarantine failed to delete if those hold nothing; with the marker among it, if there was one, that is the old text if and only if all of it is there. |
| `RestoredChats.BrokenRestoreReadsTheSameExactly` | agent/src/core/cloud/boot.rs:224-271 | One of the three cases holds for every boot of a chat within the budget whose fetching breaks off, with exactly these conditions. |
| `HtmlTokens.TokenizeHtml` | agent/src/core/channels/markdown_html.rs:464-503 | The index loops compute the token list. |
| `HtmlTokens.ConcatTokenize` | agent/src/core/channels/markdown_html.rs:464-503 | The tokens spell the input: nothing is lost. |
| `HtmlTokens.FirstTokIsStable` | agent/src/core/channels/markdown_html.rs:464-503 | A token is cut the same in front of any text, a raw ampersand aside. |
| `HtmlTokens.BalancedIsComplete` | agent/src/core/channels/markdown_html.rs:470-480 | Balanced text has no tag that is cut short. |
| `SplitBlocks.SplitBlock` | agent/src/core/channels/markdown_html.rs:520-571 | For every balanced block the pieces are balanced, their (atom, open tags) pairs in order are those of the block, and all pieces are within the limit if and only if every token fits together with the tags it stands under and their closers. |
| `SplitBlocks.FlushCarries` | agent/src/core/channels/markdown_html.rs:542-550 | Closing a piece and reopening its tags keeps the styled text. |
| `ChunksOfBlocks.ChunkBlocks` | agent/src/core/channels/markdown_html.rs:574-606 | Chunks are well formed, show the blocks in order, are all within the limit if and only if every oversize block can be split within it, and join short blocks by single newlines. |
| `HtmlTexts.Escape` | agent/src/core/channels/markdown_html.rs:20-31 | The loop computes the escaped text. |
| `HtmlTexts.EscapeAttr` | agent/src/core/channels/markdown_html.rs:34-46 | The same with quotes. |
| `HtmlTexts.StripTags` | agent/src/core/channels/telegram.rs:275-290 | Drops what stands in tags and unescapes by four replacements in turn. |
| `HtmlTexts.UnescapeEscaped` | agent/src/core/channels/telegram.rs:286-289 | The sequential replacements undo the escaping, for every text. |
| `HtmlTexts.StripUndoesEscape` | agent/src/core/channels/telegram.rs:275-290 | `strip_tags(escape(s)) == s` for every text, and for attributes. |
| `HtmlTexts.StripShows` | agent/src/core/channels/telegram.rs:275-290 | The plain-text fallback of a well-formed fragment is the text it shows. |
| `HtmlNesting.ShortTagsFit` | agent/src/core/channels/markdown_html.rs:517-519 | A block whose tags are short and nest boundedly is within the limit in every piece. |
| `HtmlNesting.LongTagNeverFits` | agent/src/core/channels/markdown_html.rs:517-519 | A tag longer than the limit cannot be split: its block exceeds the promised limit. |
| `LongLinks.LongLinksFitExactly` | agent/src/core/channels/markdown_html.rs:110-203 | Such blocks are rendered: the markdown `[a](x...x)` becomes one paragraph with one link, which can be sent within 4096 characters if and only if its target has at most 4080 letters. |
| `MarkdownInline.FindUrlClose` | agent/src/core/channels/markdown_html.rs:61-77 | The closing parenthesis of a link target. |
| `MarkdownInline.UrlCloseBalances` | agent/src/core/channels/markdown_html.rs:59-77 | A link target holds balanced parentheses, and the search gives up only when none would close it. |
| `MarkdownInline.FindDouble` | agent/src/core/channels/markdown_html.rs:80-89 | The first doubled delimiter. |
| `MarkdownInline.FindSpan` | agent/src/core/channels/markdown_html.rs:118-188 | Which construct starts at a position, in the order of precedence. |
| `MarkdownInline.RenderInlineDepth` | agent/src/core/channels/markdown_html.rs:110-203 | The loop with its recursion computes the inline rendering, and ends. |
| `MarkdownInline.InlineShows` | agent/src/core/channels/markdown_html.rs:110-203 | For every line the rendering is well formed and shows the line with some characters left out, in order: nothing is invented or moved. |
| `MarkdownInline.FallbackShowsTheLine` | agent/src/core/channels/markdown_html.rs:110-203 | The plain-text fallback of a rendered line is a subsequence of it, and the line itself when no marker is live (snake_case included). |
| `MarkdownTables.RenderTable` | agent/src/core/channels/markdown_html.rs:302-350 | Rows, widths, grid or records as specified, and how many lines are consumed. |
| `MarkdownTables.MeasureColumns` | agent/src/core/channels/markdown_html.rs:317-322 | Each width is the length of the longest cell of its column. |
| `MarkdownTables.FormatRowWidth` | agent/src/core/channels/markdown_html.rs:284-297 | Columns line up: every row of the grid has the same width. |
| `MarkdownTables.GridFitsThePhone` | agent/src/core/channels/markdown_html.rs:325-333 | A grid with data rows never has a line wider than 34. |
| `MarkdownBlocks.RenderBlocks` | agent/src/core/channels/markdown_html.rs:355-452 | The block loop computes the blocks. |
| `MarkdownBlocks.EveryBlockIsHtml` | agent/src/core/channels/markdown_html.rs:355-452 | Whatever the markdown, every block is balanced with closers that match their openers, has no raw ampersand, and nests at most 34 tags. |
| `MarkdownBlocks.FenceShowsItsBody` | agent/src/core/channels/markdown_html.rs:362-386 | The fallback text of a fenced block is its lines. |
| `MarkdownBlocks.RenderTelegram` | agent/src/core/channels/markdown_html.rs:608-612 | Every message is well formed, together they show what the blocks show, and they respect the limit of 4096 if and only if every block fits, which holds if no tag with its closer takes more than 120 characters. |
| `ToolLoops.LoopDetector.CheckCall` | agent/src/core/tool_loop.rs:55-135 | The verdict, in the order circuit breaker, ping-pong, generic repeat. |
| `ToolLoops.LoopDetector.RecordCall` | agent/src/core/tool_loop.rs:138-147 | The window keeps the last thirty records. |
| `ToolLoops.LoopDetector.RecordOutcome` | agent/src/core/tool_loop.rs:150-173 | The most recent record of the call without a result gets it; else one is added. |
| `ToolLoops.LoopDetector.GetNoProgressStreak` | agent/src/core/tool_loop.rs:175-199 | Length of the trailing run of the call with one result. |
| `ToolLoops.LoopDetector.GetPingPongStreak` | agent/src/core/tool_loop.rs:201-278 | The alternation the call would prolong, plus one, and whether both calls always returned the same. |
| `ToolLoops.OutcomeClosesTheCall` | agent/src/core/tool_loop.rs:138-173 | Recording a call and then its outcome leaves one finished record. |
| `ToolLoopRuns.Drive` | agent/src/core/agent_loop.rs:384-447 | Driven as the agent drives it, the detector holds exactly the last thirty executed calls. |
| `ToolLoopRuns.RepeatsAtMostTwenty` | agent/src/core/tool_loop.rs:92-118 | No run executes more than twenty identical calls in a row, whatever they return. |
| `ToolLoopRuns.CircuitBreakerNeverFires` | agent/src/core/tool_loop.rs:60-71 | Hence the circuit breaker at thirty never fires. |
| `ToolLoopRuns.AlternationsEnd` | agent/src/core/tool_loop.rs:73-101 | An alternation of two calls with constant results executes at most thirty consecutive calls, and at most nineteen when the whole maximal alternation was constant. |
| `ToolLoopRuns.PastTwentyExactlyInAlternations` | agent/src/core/tool_loop.rs:90-118 | A call that stands twenty times in the window is executed if and only if it prolongs an alternation long enough for a warning and not both long enough and stuck. |
| `ToolLoopRuns.TwentyThreeInTheWindow` | agent/src/core/tool_loop.rs:90-101 | Counterexample to the plain bound: a run with one call twenty-three times in the window. |
| `ToolLoopWindows.WindowHoldsAtMostTwentyThree` | agent/src/core/tool_loop.rs:73-118 | And that is the most: in no run does one call stand in the window of thirty more than twenty-three times. |
| `ToolLoopWindows.EarlyInAlternation` | agent/src/core/tool_loop.rs:90-118 | In the first nine calls of an alternation a call passes only if it stands in the window less than twenty times. |
| `AgentLoops.Turn.ExecuteCall` | agent/src/core/agent_loop.rs:384-474 | One call: started, checked, perhaps skipped, run, recorded, capped or refused, answered, finished. |
| `AgentLoops.Turn.ExecuteToolCalls` | agent/src/core/agent_loop.rs:355-493 | One assistant message, one result per call in order, then at most one message with the warnings the detector gave. |
| `AgentLoops.Turn.TakeText` | agent/src/core/agent_loop.rs:120-173 | A text is a nudge exactly when one is due, else it is final. |
| `AgentLoops.Turn.RunLoop` | agent/src/core/agent_loop.rs:29-216 | Watched for any number of passes, messages, events, offered schemas and calls of the model are exactly those of a log a run can have. |
| `AgentRuns.CallsAreBounded` | agent/src/core/agent_loop.rs:46-118 | With R answers that ask for tools, at most 3 * (R + 5) calls of the model. |
| `AgentRuns.RunsEnd` | agent/src/core/agent_loop.rs:46-118 | Given at most R such answers the loop ends within 3 * (R + 5) passes. |
| `AgentRuns.EventsBracket` | agent/src/core/chat_events.rs:29-62 | Every started tool call is closed by its own finish before anything else is sent, and thinking likewise, in every run. |
| `AgentRuns.OneFinalText` | agent/src/core/chat_events.rs:57-62 | At most one final text, sent with the last pass. |
| `AgentRuns.TranscriptIsPaired` | agent/src/core/agent_loop.rs:366-381 | Every tool call of every assistant message is answered exactly once, in order, directly behind it. |
| `AgentRuns.ReportedIsExecuted` | agent/src/core/agent_loop.rs:384-474 | What the transcript reports as run is what the detector let through. |
| `AgentRuns.RunsRepeatAtMostTwenty` | agent/src/core/agent_loop.rs:403-421 | No transcript of the agent loop reports more than twenty identical calls run in a row. |
| `Gateways.RebuildHistory` | agent/src/core/gateway.rs:236-253 | System prompt, then the messages of the branch. |
| `Gateways.OpenTurn` | agent/src/core/gateway.rs:225-281 | The model is given the branch and the user message, which is appended. |
| `Gateways.CloseTurn` | agent/src/core/gateway.rs:345-365 | Every new message except system messages is appended, those whose append fails excepted. |
| `Gateways.BranchGrowsByKept` | agent/src/core/gateway.rs:345-365 | The branch grows by exactly the kept messages, and the history rebuilt from it by their contents. |
| `Gateways.TurnsAreRemembered` | agent/src/core/gateway.rs:236-365 | After a turn the rebuilt history is the old one, the user message, and every message of the loop except system messages, as far as their appends succeed. |
| `Conversations.CompactedHistory` | agent/src/core/gateway.rs:236-253 | After a compaction the model is shown the kept entries and nothing else; no summary reaches it. |
| `Conversations.SummariesAreNotReadAgain` | agent/src/core/compaction.rs:168-186 | The text of a summary makes no difference to the history of later turns, nor to what a second compaction summarizes: the first summary is lost. |
| `Conversations.TurnKeepsAnswered` | agent/src/core/gateway.rs:236-365 | Whichever appends of a turn fail, the persisted conversation stays answered (every call of every assistant message has its result directly behind it, in order) if each assistant message is persisted together with all its results or with none of them; for calls with different ids, if and only if. |
| `Conversations.AnsweredNeedsWholeRounds` | agent/src/core/gateway.rs:345-365 | A paired transcript with different call ids, persisted in part, is answered only if each of its rounds is persisted whole or not at all. |
| `Conversations.EndIsAnsweredExactly` | agent/src/core/sessions/mod.rs:961-974 | The end of an answered conversation is answered if and only if it does not begin with a tool result. |
| `Conversations.CompactKeepsAnsweredExactly` | agent/src/core/sessions/mod.rs:949-1054 | A compaction keeps a conversation answered if and only if the first kept entry is no tool result: the cut can split a call from its result. |
| `Conversations.StepKeepsAnswered` | agent/src/core/gateway.rs:236-365 | One turn or compaction keeps the conversation answered when it is careful: failing appends drop whole rounds, and a compaction does not cut between a call and its result; for calls with different ids, if and only if. |
| `Conversations.RunsStayAnswered` | agent/src/core/gateway.rs:225-365 | On every run of careful turns and compactions, from an empty session, the rebuilt history is answered. |
| `Crc32.BuildTable` | web/app/utils/nvs.ts:22-29 | Entry i is eight steps of the register from i. |
| `Crc32.LookupFeedsAByte` | web/app/utils/nvs.ts:36 | One table lookup feeds eight message bits, for every register and byte. |
| `Crc32.TableChecksum` | web/app/utils/nvs.ts:31-39 | The table-driven checksum is the bit-at-a-time reflected one with seed 0 and final inversion, for every byte string. |
| `Crc32.OneByteErrorsAreDetected` | web/app/utils/nvs.ts:31-39 | A change in one byte changes the checksum. |
| `NvsPages.MarkWritten` | web/app/utils/nvs.ts:54-58 | Clears the lower of the two bits of one entry. |
| `NvsPages.MakeNamespace` | web/app/utils/nvs.ts:108-118 | The declaration entry, sealed by its checksum. |
| `NvsPages.MakeData` | web/app/utils/nvs.ts:126-145 | The data entry with span, size and data checksum. |
| `NvsPages.MakeIndex` | web/app/utils/nvs.ts:158-171 | The index entry with the total size. |
| `NvsPages.BuildPartition` | web/app/utils/nvs.ts:83-176 | Builds the page of exactly the specified entries, and fails exactly when there are more than 126 of them. |
| `NvsReaders.PageMarksWritten` | web/app/utils/nvs.ts:54-62 | Of the 126 entries exactly the written ones are marked, each standing at its number. |
| `NvsReaders.ImageReadsBack` | web/app/utils/nvs.ts:83-176 | A reader recovers every (namespace, key, value) in order, names up to fifteen bytes. |
| `NvsReaders.RecoversExactlyShortNames` | web/app/utils/nvs.ts:72-77 | The blobs come back unchanged if and only if no name is longer than fifteen bytes. |
| `Snapshots.SortKeys` | agent/src/core/cloud/snapshots.rs:88-90 | Ascending and the same keys. |
| `Snapshots.Encode` | agent/src/core/cloud/snapshots.rs:78-98 | Header and the entries in ascending key order. |
| `Snapshots.EncodingIsUnique` | agent/src/core/cloud/snapshots.rs:88-90 | The encoding does not depend on the order the map is iterated in. |
| `Snapshots.Decode` | agent/src/core/cloud/snapshots.rs:100-131 | The cursor loop computes the decoding with its errors. |
| `Snapshots.DecodeInvertsEncode` | agent/src/core/cloud/snapshots.rs:78-131 | Decoding an encoding returns the time stamp and the map, for every map with 32-bit lengths. |
| `Snapshots.PrefixesAreRejected` | agent/src/core/cloud/snapshots.rs:143-155 | Every strict prefix of an encoding is rejected. |
| `ToolRecovery.ParseTag` | agent/src/core/tool_recovery.rs:79-182 | Whatever is parsed is consumed: the rest is strictly shorter. |
| `ToolRecovery.ScanTag` | agent/src/core/tool_recovery.rs:79-182 | The cursor loops compute the tag and where it ends. |
| `ToolRecovery.RecoverCalls` | agent/src/core/tool_recovery.rs:36-69 | The scan computes the recovered calls. |
| `ToolRecovery.ValueRoundTrip` | agent/src/core/tool_recovery.rs:143-169 | A value printed with escaped quotes is read back if and only if it does not end in a backslash. |
| `ToolRecovery.TagRoundTrip` | agent/src/core/tool_recovery.rs:79-182 | A printed tag is read back with its attributes. |
| `ToolRecovery.BlockRoundTrip` | agent/src/core/tool_recovery.rs:36-69 | A printed block of calls to known tools is recovered when no value ends in a backslash: the same calls in the same order, numbered from zero, whatever else their values contain. |
| `ToolRecovery.BlockReadsBackExactly` | agent/src/core/tool_recovery.rs:36-182 | And the tags of such a block are read back if and only if no value ends in a backslash. |
| `ToolRecovery.IdsAreDistinct` | agent/src/core/tool_recovery.rs:173-180 | Recovered calls have distinct ids, for every reply. |
| `RunnerScan.FindTopLevelCloseParen` | agent/src/core/runner.rs:704-727 | The first parenthesis outside every string, or none if there is none. |
| `RunnerScan.ArgumentsAreClosed` | agent/src/core/runner.rs:675-678 | For all arguments and whatever follows, the parenthesis behind the arguments is the one found if and only if the arguments close their strings and hold no parenthesis outside them. |
| `RunnerScan.SplitTopLevelCommas` | agent/src/core/runner.rs:764-795 | Rejoined with commas the pieces are the input; no piece has a comma outside a string and every finished piece closes its strings. |
| `RunnerScan.SplitIsUnique` | agent/src/core/runner.rs:764-795 | Those properties determine the pieces. |
| `RunnerScan.ArgumentIsWhole` | agent/src/core/runner.rs:675-678 | A printed argument with a plain key closes its strings and has no comma or parenthesis outside them, whatever its value contains. |
| `RunnerScan.PrintedCallIsTakenApart` | agent/src/core/runner.rs:675-795 | A call printed from such arguments is taken apart into exactly them: they end at its own parenthesis and splitting them gives the printed pieces. |
| `Cron.NextPointIsLeast` | agent/src/core/cron.rs:70-94 | `Every` gives the least grid point behind the anchor that is not before now. |
| `Cron.NextRunIsNowExactlyOnTheGrid` | agent/src/core/cron.rs:88-91 | It gives now itself if and only if now is such a point. |
| `Cron.NextPointFits` | agent/src/core/cron.rs:88-91 | Nothing overflows 64 bits when now and anchor plus one interval do not. |
| `Cron.BackoffNeverShrinks` | agent/src/core/cron.rs:27-31 | The backoff is nondecreasing in the number of errors. |
| `Cron.FailureBacksOff` | agent/src/core/cron.rs:441-456 | A failure moves the next run to at least now plus the backoff, never before the schedule. |
| `Cron.FailingJobsStop` | agent/src/core/cron.rs:169-180 | A job that always fails is run at most ten times, whenever it is looked at, and disabled after the tenth. |
| `Cron.OneShotsRunOnce` | agent/src/core/cron.rs:75-80 | A one-shot job that fails is not run again. |
| `Cron.StrictPut` | agent/src/core/cloud/strict.rs:24-47 | Succeeds if and only if one of the first `retry_max + 1` attempts does, and stops at the first. |
| `Cron.CronStore.Save` | agent/src/core/cron.rs:252-277 | Cache first, then the store, then the file; succeeds if and only if one of the attempts at the store does (or there is no store) and the file can be written; what the store refuses stays in the cache. |
| `Cron.CronStore.Add` | agent/src/core/cron.rs:279-287 | A failed add removes the id, which restores the jobs if and only if the id was new. |
| `Cron.CronStore.Remove` | agent/src/core/cron.rs:289-299 | A failed removal restores the jobs. |
| `Cron.CronStore.Update` | agent/src/core/cron.rs:313-325 | A failed update restores the jobs as they were when it was called. |
| `Cron.CronStore.ApplyJobResult` | agent/src/core/cron.rs:401-466 | The job is changed before the update, so in memory its outcome is the same whether the save succeeds or not; a job to be deleted after a success is gone if and only if the save succeeds, and otherwise is due again whenever it was before it started. |
| `WebTexts.JoinLines` | web/app/utils/memory.ts:44 | Splitting at `\r?\n` and joining with LF gives the text with every CRLF as LF. |
| `MemoryMetadata.MetadataReadsBack` | web/app/utils/memory.ts:101-148 | A metadata line is read back whenever the id has no bracket, the timestamp no tag marker, the tags no comma, all are stripped, and tags have a timestamp in front of them. |
| `MemoryMetadata.ParsedMetadataIsClean` | web/app/utils/memory.ts:101-121 | Whatever line is read, its metadata is of that kind. |
| `MemoryHeadings.BodySurvives` | web/app/utils/memory.ts:63-99 | Lines without a heading have none after losing white space at their ends. |
| `MemoryFiles.TryParseHeaderAt` | web/app/utils/memory.ts:63-90 | Finds the heading at a line in either layout, and where its body begins. |
| `MemoryFiles.NextBlockStart` | web/app/utils/memory.ts:92-99 | The next line at which a heading is found. |
| `MemoryFiles.ParseMemoryFile` | web/app/utils/memory.ts:43-61 | Computes the blocks of the file. |
| `MemoryFiles.SerializeMemoryFile` | web/app/utils/memory.ts:128-143 | Computes the text of the blocks, titled ones in the current layout and others in the legacy one. |
| `MemoryFiles.HeadReadsBack` | web/app/utils/memory.ts:63-90 | A written head is read back in both layouts, whatever follows it. |
| `MemoryFiles.WrittenReadsBack` | web/app/utils/memory.ts:43-143 | Blocks with writable heads and contents without headings are read back, their CRLFs as LFs. |
| `MemoryFiles.ParsedAreClean` | web/app/utils/memory.ts:43-61 | Every block that is read has a writable head and a stripped content without headings. |
| `MemoryFiles.RoundTripsExactlyCanonical` | web/app/utils/memory.ts:43-143 | A list of blocks survives writing and reading if and only if its heads are writable and its contents are stripped, have no line that reads as a heading, and no CRLF. |
| `MemoryFiles.SavingKeepsBlocks` | web/app/utils/memory.ts:43-143 | Reading, writing and reading again changes nothing but CRLFs in contents, and so nothing at all if and only if there are none. |
| `MemoryFiles.SavingCanChangeContent` | web/app/utils/memory.ts:43-143 | Counterexample: a file with a doubled carriage return, one of whose contents is changed by saving. |

## Left out

- HTTP, WebSocket, TLS, device drivers, `main.rs`, request signing and the XML of the object store: the store is a map whose operations may fail.
- The listing limit of one page of keys in the object store client: a listing is complete or fails.
- JSON and UTF-8 decoding: parameters, as said above. Hashes of calls and results in the loop detector are taken to be injective, and results are compared whole where the code hashes their first 500 bytes.
- Clocks, sleeps and UUIDs: times and fresh ids are inputs; the replicator's backoff is a step without a duration.
- Local files: reads and writes of session files succeed, and `materialize`, sidecars, sidebar listing and session state are not modelled.
- ReplicatorState.Enqueue: does not model poisoned locks; `queued_at` and `last_sync_at` are left out.
- ReplicatorWakeups.EveryRunIsSound: assumes the queue length stays below the `u32` edge, since `queue.len() as u32` truncates beyond it.
- SessionHistory.CrashKeepsTheBranch: takes the writes to reach the store in the order they were enqueued and one by one.
- ReplicatedSessions.ReplicatedCrashKeepsTheBranch: is about runs of the replicator in which no write coalesces and none is given up; with coalescing different chats can stand at different appends, so `CoalescedSessions.CoalescedCrashKeepsTheBranch` is about one chat.
- CoalescedSessions.CoalescedCrashKeepsTheBranch: excludes writes that are given up and a failing PUT that comes back while a newer write of its key is queued; `ReplicatorFreshness.StaleBytesCanLandLast` shows that then even the last bytes of one file can be lost.
- ReplicatorWakeups.BlockedEnqueueIsWoken: says that a blocked producer is woken, not that it gets in: others may fill the queue first.
- RestoredChats.PartialHydrationReadsTheSameExactly: requires the marker among the fetched files; without it absorbed logs are read again, and the chat reads as in the store when the two texts agree.
- RestoredChats.QuarantinedReadsTheSameExactly: says nothing when the store had a marker that neither was fetched nor is left.
- SessionLog.ChatReadsWhatWasAppended: assumes fewer than 2^32 appends, where the log number would overflow.
- SessionTree.CompactKeepsRecentEntries: is about the entries of the session file; in the cloud tier `compact` writes that file and not the log.
- Sessions.SessionManager.Load: reads the cache alone; the lazy restore is `Boots.CloudLoadText`.
- Boots.BootRestore: leaves out the heartbeat, MEMORY.md, cron.json and identity files, which are single keys copied when their GET succeeds.
- MarkdownBlocks.RenderTelegram: the retry as plain text after a refused message is `HtmlTexts.StripTags`; sending is not modelled.
- AgentLoops.Turn.RunLoop: takes the model's schemas, provider data and the backoff between attempts out of the messages; an unending run is described by its finite beginnings.
- AgentLoops.Turn.ExecuteCall: counts a result's characters where the code counts bytes.
- Gateways.CloseTurn: assumes room for the log numbers of the appended messages; titles, activity bumps, slash commands and the map of active chats are left out.
- NvsPages.BuildPartition: requires a partition of at least one page; names and values are given as encoded bytes.
- Snapshots.Decode: does not model running out of memory on a huge entry count; the temporary file and rename are left out.
- ToolRecovery.RecoverCalls: the JSON object of the arguments, with its coercion by schema, is the parameter `build`.
- Cron.NextPointIsLeast: is over unbounded numbers; `NextPointFits` says when 64 bits suffice.
- `parse_glm_call`, the summarizer prompt and the other provider adapters: only the two scanners of the GLM format are modelled.
- The rest of `web/app/utils/memory.ts` (display titles, capacity, tag counts, dates) and the agent's twin of the format in `memory_tools.rs`.
- `SubagentRegistry` and the web user interface: easy counters and presentation.
