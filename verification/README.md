# Verified model of the Shinzo generator client

The generator client reads blocks from an EVM node, converts them to documents and stores them in an embedded
document database, while the chain it follows may reorganise under it. This project models the parts of it where a
mistake would leave wrong data behind, and proves what they keep.

The centre is the **reorg-safe block processor** and its **rollback**. `Processor.dfy` is one state machine over
interleaved steps: the dispatcher and fetch workers, the collector loop (ordered pop, continuity check, dispatch,
ordered apply, confirmation wait, drain, walk-back), the store pool, and the outer loop that rolls back and restarts.
Every goroutine move is one action; fetches, stores, stored-hash queries and delete requests fail whenever they like.
A run is any sequence of states joined by enabled actions, and the theorems hold in every state of every run.

- `Chain`, `WalkBack`: hashes, the stored-hash query, the descent to the common ancestor.
- `Processor`, `StorePool`, `OrderedApply`, `Collector`, `Continuity`, `Evidence`, `Effort`, `Safety`: the state
  machine and what every run of it keeps.
- `Rules`: what each decision of the machine comes to, said over the visible blocks and the states before and after.
- `Recovery`: what the processor can always do next, up to getting back onto a new branch.
- `Rollback`, `CrashRecovery`: deleting orphaned heights, stopping anywhere in between, and starting again.
- `Documents`, `BlockWriter`: link stamping, batched writes, the per-document fallback, tracking, the signing gate.
- `AccessList`, `Receipts`: access-list de-duplication and the two receipt paths.
- `DocIdText`, `PruneQueue`: packed document identifiers and the prune queue.
- `Merkle`, `SnapshotRange`: the snapshot root and the snapshot ranges.

The main results, each proved for all inputs or for every reachable state:

- The visible store never holds two blocks at one height or two neighbours that are not parent and child, through any
  number of reorgs, rollbacks, restarts and process deaths (`Safety.StoreStaysSafe`, `CrashRecovery.SafeAcrossProcesses`).
- Every quiet run whose top blocks were orphaned by a branch within the walk-back's reach has a continuation after which
  the store is exactly the old blocks up to the fork and the branch above it, also when the node flips up to 64 times
  before it settles (`Recovery.ReorgIsRepaired`); from a fresh start such runs exist for any two branches
  (`Recovery.TwoBranches`).
- Which way every decision goes, in both directions: an item is parked exactly when it contradicts the known parent, a
  stale orphan is reported exactly when a single other block is stored, a stale episode walks back from the highest stale
  item drained, and a rollback begins exactly within both guards (`Rules.PopDecision`, `Rules.StaleIff`,
  `Rules.StaleWalkStartsHighest`, `Rules.RollbackBeginsIff`).
- A rollback stopped anywhere is found again by the next process, with the same fork point, exactly when the surviving
  range has no hole (`CrashRecovery.RunCrashRecovers`, `CrashRecovery.SameForkIffNoHole`).
- The walk-back succeeds exactly when a fork point exists, and its evidence is one unbroken chain
  (`WalkBack.WalkBackCorrect`, `Evidence.ConfirmedEvidence`).
- The drain is never stuck and always ends on a quiet pool; the caller hears of each stored height once, in order, and
  of none after the run has ended (`StorePool`, `OrderedApply`).
- A signature covers exactly the documents one call committed, whatever the database did in between, and a block of new
  documents is stored in spite of up to two conflicts on every batch (`BlockWriter.Store`).

## Model

| member | source | states |
|---|---|---|
| Chain.StoredHashOfUnique | pkg/defra/reorg_roller.go:231-260 | with one block per height the stored-hash query never fails: it answers the block's hash, or the empty hash for an empty height |
| Chain.StoredHashSound | pkg/defra/reorg_roller.go:231-260 | an answered hash is the hash of every block visible at that height, and a non-empty answer belongs to a visible block |
| WalkBack.WalkBackLoop | pkg/indexer/concurrent_processor.go:1582-1650 | the loop computes the walk-back function, visits at most 65 heights when no finalized height is known, and on success visits exactly the heights from the start to the fork point |
| WalkBack.DescendMeetsSpec | pkg/indexer/concurrent_processor.go:1609-1650 | from any height of the descent the result is the fork point with its evidence, or a failure when no fork point exists |
| WalkBack.WalkBackCorrect | pkg/indexer/concurrent_processor.go:1582-1650 | succeeds if and only if a fork point exists; the answer is the highest height that matches or lies empty below the configured start, with one chain hash per height down to it |
| WalkBack.ForkPointUnique | pkg/indexer/concurrent_processor.go:1582-1650 | there is at most one fork point |
| WalkBack.EvidenceIsOneChain | pkg/indexer/concurrent_processor.go:1582-1650 | the hash map covers fork point to start, each hash the parent of the next, and every stored block above the fork point disagrees with it |
| WalkBack.StaleHeightVisitedIff | pkg/indexer/concurrent_processor.go:982-993 | a stale height is covered by the walk-back's evidence exactly when nothing stored above it stops the descent |
| WalkBack.StaleHeightMissed | pkg/indexer/concurrent_processor.go:1302-1308 | a concrete store in which a matching block landed above a stale one, which the walk-back then does not visit |
| StorePool.RunKeepsPool | pkg/indexer/concurrent_processor.go:615-757 | every reachable state keeps the pool invariant: registrations counted, channel capacities respected, no send after close |
| StorePool.InFlightAccounting | pkg/indexer/concurrent_processor.go:615-627 | registrations equal held, queued and unfinished stores and are never negative; sends happen only while the store channel is open and no episode or rollback point exists; the walk-back starts on an idle pool with nothing unread |
| StorePool.DrainNeverStuck | pkg/indexer/concurrent_processor.go:1021-1093 | in every draining state, under any buffer fill, some drain move is enabled |
| StorePool.DrainMeasureFalls | pkg/indexer/concurrent_processor.go:1021-1093 | every drain move lowers the remaining work and no other step raises it |
| StorePool.DrainIsBounded | pkg/indexer/concurrent_processor.go:1021-1093 | over any stretch of a run spent draining, the drain moves are bounded by the work at its beginning |
| StorePool.DrainEndsEmpty | pkg/indexer/concurrent_processor.go:1021-1093 | the drain is left only with zero registrations, an idle pool and an empty completion channel |
| Collector.OrderedCollector.CollectReadyCompletions | pkg/indexer/concurrent_processor.go:906-922 | the in-place loop over cursor, holes and reorder buffer leaves the state and yields the batch of the ordered pass |
| Collector.OrderedCollector.Receive | pkg/indexer/concurrent_processor.go:888-895 | parking a completion and collecting changes the state as the processor's park step says and returns what it newly consumed |
| OrderedApply.CollectReadyKeeps | pkg/indexer/concurrent_processor.go:906-922 | a pass conserves every registered height, passes each height once as hole or completion, and stops only where neither is available |
| OrderedApply.ParkedInWindow | pkg/indexer/concurrent_processor.go:888-922 | parked completions lie between the apply cursor and the pop cursor, apart from the holes |
| OrderedApply.PassedOnce | pkg/indexer/concurrent_processor.go:775-784 | each height the cursor passed was consumed exactly once, as a hole or as a completion |
| OrderedApply.OrderedApplyHolds | pkg/indexer/concurrent_processor.go:888-1006 | in every reachable state: heights consumed exactly once, holes and parked completions disjoint and in their window, callbacks strictly increasing, only for stored heights, and complete while the run is neither cancelled nor pinned |
| OrderedApply.EndedIsSilent | pkg/indexer/concurrent_processor.go:928-1006 | no step after a rollback point or fatal error fires a callback, also in the middle of a batch |
| OrderedApply.SilentAfterEnd | pkg/indexer/concurrent_processor.go:1130-1151 | over whole runs: nothing is reported between the end of a run and its restart |
| Continuity.PassedCheckLinks | pkg/indexer/concurrent_processor.go:1350-1372 | an item that passes the continuity check extends the handed-over chain by one parent link |
| Continuity.CheckBeforeStore | pkg/indexer/concurrent_processor.go:766-802 | in every reachable state what was handed to the pool is one parent-linked chain continuing the seed, the pool holds nothing else, and a pop-time episode's in-flight stores lie below its base |
| Continuity.OpenEpisodeHoldsBack | pkg/indexer/concurrent_processor.go:1157-1169 | while an episode is open nothing is registered or sent, and the in-flight count does not grow |
| Continuity.HeldBack | pkg/indexer/concurrent_processor.go:682-717 | the same for a single step from any state with the pool invariant |
| Evidence.WaitPoint | pkg/indexer/concurrent_processor.go:1284-1339 | the recorded point covers fork point to base + 1 as one parent chain, ending in the parked mismatch and its confirmed successor |
| Evidence.ConfirmedEvidence | pkg/indexer/concurrent_processor.go:1177-1237 | in every run the confirming item sits at base + 1 after any re-anchors and refills, and the map handed over is exactly one unbroken chain |
| Evidence.RollbackStepSettles | pkg/defra/reorg_roller.go:144-187 | one rollback height leaves that height empty or on the new chain and touches no other height |
| Evidence.RollbackSettles | pkg/indexer/concurrent_processor.go:390-436 | after a finished rollback every covered height is empty or stores the new chain's hash |
| Effort.CountKeepsLimits | pkg/indexer/concurrent_processor.go:390-436 | counting a rollback either trips a guard or keeps both limits against the executed history |
| Effort.RollbacksAreBounded | pkg/indexer/concurrent_processor.go:390-436 | between two commits at most 64 rollbacks begin and at most 3 restart from one height |
| Effort.WaitIsBounded | pkg/indexer/concurrent_processor.go:1177-1271 | a confirmation wait takes at most 65 popped items and 64 re-fetches; the last allowed one decides or fails it |
| Rules.StopsIff | pkg/indexer/concurrent_processor.go:1609-1633 | the walk-back stops at a height it can read exactly when the only block stored there carries the chain's hash, or no hash is stored and indexing starts above |
| Rules.DescendsIff | pkg/indexer/concurrent_processor.go:1609-1650 | it goes on below a height exactly when the query answers, it is fewer than 64 below its start or finality is known, and the node names a parent |
| Rules.BreakIffContradicted | pkg/indexer/concurrent_processor.go:1350-1388 | the continuity and gap checks together fire exactly when the item names another parent than the seed, the block handed over before it, or, that hash being unknown, the only stored block below it |
| Rules.PopDecision | pkg/indexer/concurrent_processor.go:766-802 | in every run a popped item becomes a hole exactly when its fetch failed, is parked and opens a wait exactly when it contradicts the known parent, and is registered for the pool otherwise |
| Rules.GuardDecides | pkg/indexer/concurrent_processor.go:703-717 | a waiting dispatch is given up, with its registration, exactly when an episode, a rollback point or a cancellation is there |
| Rules.DispatchAhead | pkg/indexer/concurrent_processor.go:1391-1440 | in every run the dispatcher is at most twice the workers ahead of the next pop, and while it is less far ahead it can dispatch the next height in order |
| Rules.DispatchedIsKept | pkg/indexer/concurrent_processor.go:672-757 | in every run, until a cancellation, each dispatched height not yet popped is being fetched, in the result channel or waiting in order |
| Rules.UsableItemDecides | pkg/indexer/concurrent_processor.go:1186-1237 | in an open wait a usable item that chains on the parked one starts the drain; any other moves base height, base parent and parked hash onto itself and counts one flip, up to 64; the next fails the run |
| Rules.UnusableItemDecides | pkg/indexer/concurrent_processor.go:1246-1275 | an unusable item is replaced by its re-fetch and the wait goes on, up to 64 times; a failed re-fetch fails the run unless a shutdown interrupted it |
| Rules.StaleIff | pkg/indexer/concurrent_processor.go:639-663 | the failure handler reports a stored hash as a stale orphan exactly when the store failed, the item has a hash, the query answered, and that hash, not empty and not the item's, belongs to the single block visible at the height |
| Rules.ReceiveOpensPinned | pkg/indexer/concurrent_processor.go:928-983 | consuming completions with no episode, point or fatal error opens the pinned episode at the first stale report and leaves the rest of the batch for later |
| Rules.RefusedFails | pkg/indexer/concurrent_processor.go:962-966 | a store refused for a deleted document fails the run |
| Rules.PinnedAnchorIsHighest | pkg/indexer/concurrent_processor.go:984-993 | over any stretch of a run inside a pinned episode nothing is reported and the anchor is the highest of the stale items drained |
| Rules.FinishDecides | pkg/indexer/concurrent_processor.go:1284-1339 | after the drain a rollback point is recorded exactly when the descent from the anchor has a fork point and nothing cancelled the run before; without one the run fails, unless a shutdown interrupted it |
| Rules.LeftoverIsApplied | pkg/indexer/concurrent_processor.go:928-940 | what a stale report left of its batch is applied after the episode: a refusal fails the run, and unless the run ended every store is reported |
| Rules.StaleWalkStartsHighest | pkg/indexer/concurrent_processor.go:1302-1339 | over runs: a stale episode walks back from the highest stale item drained, with that item's hash, and records that descent's fork point |
| Rules.RollbackBeginsIff | pkg/indexer/concurrent_processor.go:390-436 | when a run ends a rollback begins, from the height above the fork up to the last dispatched one, exactly without an error, with a point, with fewer than 64 rollbacks since the last report and fewer than 3 from that height; otherwise the processor stops |
| Rules.CancelledRunsReport | pkg/indexer/concurrent_processor.go:928-1006 | in every run, until an error or point is recorded or a stale orphan drained, every store the cursor passed was reported, also after a cancellation |
| Rules.HistoryHoldsFrontier | pkg/indexer/concurrent_processor.go:1138-1143 | in every run the committed history holds reported heights only, with the hashes handed over, and every reported one from two below the next pop on |
| Rules.ReportTrims | pkg/indexer/concurrent_processor.go:1138-1145 | a report trims the history to the frontier and clears both rollback guards |
| Rules.RollbackDecides | pkg/defra/reorg_roller.go:144-187 | one rollback height deletes what is stored there exactly when a hash was verified for it and the only stored block carries another; an unreadable or ambiguous verified height stops the rollback |
| Rules.RestartDecides | pkg/indexer/concurrent_processor.go:466-524 | the restart seeds from the reported hash below, also when the store cannot be read, else from the only stored block, and starts a fresh run with the guards kept; otherwise it stops |
| Safety.LandingIsSafe | pkg/indexer/concurrent_processor.go:615-627 | a checked block landing at any moment keeps one block per height and parent-linked neighbours |
| Safety.NeverStale | pkg/indexer/concurrent_processor.go:639-663 | a failed store of a checked item is never reported as a stale orphan |
| Safety.PointProvesOrphans | pkg/indexer/concurrent_processor.go:1284-1339 | the recorded point holds a different non-empty hash for every visible block above the fork |
| Safety.RollbackHeightSafe | pkg/defra/reorg_roller.go:144-187 | each rollback height, with any fault, keeps the store safe and the range above empty |
| Safety.RestartSafe | pkg/indexer/concurrent_processor.go:466-483 | the restart finds nothing at or above its height and seeds from the block below |
| Safety.StoreStaysSafe | pkg/indexer/concurrent_processor.go:367-436 | whole-protocol safety: in every reachable state, mid-rollback included, one block per height and parent-linked neighbours |
| Safety.EveryEpisodeIsAWait | pkg/indexer/concurrent_processor.go:1101-1117 | from a clean start no stale-pinned episode ever opens |
| Recovery.IndexNext | pkg/indexer/concurrent_processor.go:682-757 | from any quiet state the next block of the chain can be fetched, checked, stored and reported once, and the run is quiet again |
| Recovery.MeetReorg | pkg/indexer/concurrent_processor.go:1157-1217 | a block that breaks continuity, up to 64 further flips and a successor that chains on the newest block lead through wait, drain and walk-back to an ended run with that walk-back's fork point recorded |
| Recovery.RollToEnd | pkg/defra/reorg_roller.go:144-187 | a rollback without faults runs to its end and leaves exactly the blocks at or below the fork point |
| Recovery.RollbackAndRestart | pkg/indexer/concurrent_processor.go:390-436 | an ended run with a recorded point can roll back and restart quietly right above the fork |
| Recovery.IndexBranch | pkg/indexer/concurrent_processor.go:490-571 | a quiet run on a branch can index the rest of it, adding exactly its blocks |
| Recovery.FindsFork | pkg/indexer/concurrent_processor.go:1582-1650 | with a node that follows the branch the walk-back returns the fork height |
| Recovery.ReorgConverges | pkg/indexer/concurrent_processor.go:367-436 | from every quiet state with orphaned top blocks, after any flip-flop of at most 64 blocks, the processor can end with exactly the shared blocks and the new branch stored |
| Recovery.ReorgIsRepaired | pkg/indexer/concurrent_processor.go:367-436 | every run that gets to such a state has a continuation that ends on the branch |
| Recovery.TwoBranches | pkg/indexer/concurrent_processor.go:367-436 | for any two branches forking off within 64 blocks some run from a fresh start indexes the first and ends with exactly the second |
| Rollback.DeleteOrder | pkg/defra/reorg_roller.go:85-106 | the two passes build registered children in reverse, then unregistered collections, then the block collection |
| Rollback.OrderedIsPermutation | pkg/defra/reorg_roller.go:85-106 | the order is a permutation with the block collection last and only there |
| Rollback.DependentsFirst | pkg/defra/reorg_roller.go:85-106 | of two registered children the later registered one is deleted first |
| Rollback.Roller.SoftDelete | pkg/defra/reorg_roller.go:194-221 | success deletes exactly the listed documents in requests of 100, failure a part of them, and nothing when they fit in one chunk |
| Rollback.Roller.DeleteHeight | pkg/defra/reorg_roller.go:144-187 | success empties the height; stopped anywhere, a missing block document means no child is visible |
| Rollback.Roller.RollbackBlocks | pkg/defra/reorg_roller.go:144-187 | success deletes exactly the documents of heights in range with a verified, different stored hash; every stop leaves a crash point; success means every verified height could be read, and with enough requests that suffices |
| Rollback.OrphanIff | pkg/defra/reorg_roller.go:150-163 | a height is an orphan exactly when a hash was verified for it and its only block document carries another non-empty one |
| Rollback.ResumeCompletes | pkg/defra/reorg_roller.go:144-187 | resuming from any crash point ends where the uninterrupted rollback would have |
| Rollback.RerunDeletesNothing | pkg/defra/reorg_roller.go:144-187 | a second rollback over the same range has nothing left to delete |
| Rollback.NoOrphanedChildren | pkg/defra/reorg_roller.go:85-106 | in every crash state a missing block document implies no visible child at its height |
| CrashRecovery.QueriesAgree | pkg/defra/reorg_roller.go:231-260 | the document-level stored-hash query and the processor's query give the same answer |
| CrashRecovery.RollerRefinesProcessor | pkg/defra/reorg_roller.go:144-187 | the processor's height-by-height rollback, run to its end, is the block view of the finished document rollback |
| CrashRecovery.CrashCutsOff | pkg/defra/reorg_roller.go:144-187 | seen as blocks, every crash point is the old store cut off at some height at or above the fork point |
| CrashRecovery.CrashRefinesProcessor | pkg/defra/reorg_roller.go:144-187 | every stop of the document rollback, also in the middle of a height, shows the blocks of some state of the processor's rollback |
| CrashRecovery.IndexerConfig.ResolveStartHeight | pkg/indexer/indexer.go:386-422 | above a stored block the start is the greater of the next height and the tip less the buffer; else a positive configured height is kept, or the tip less the buffer taken, at least 0; without a tip nothing is written |
| CrashRecovery.StartsAboveStoreIff | pkg/indexer/indexer.go:386-422 | a process starts above everything stored exactly when the store is empty, a positive highest block was answered, or the fallback height already lies above it |
| CrashRecovery.SameForkIffNoHole | pkg/indexer/concurrent_processor.go:1582-1650 | the resumed walk-back finds the old fork point if and only if the surviving range has no hole |
| CrashRecovery.HoleHidesFork | pkg/indexer/concurrent_processor.go:1609-1613 | a concrete store with a hole whose resumed walk-back stops too high |
| CrashRecovery.CutStoreRedetects | pkg/indexer/concurrent_processor.go:1350-1372 | on a cut-off store the first block breaks the seed check and the walk-back returns the same fork point |
| CrashRecovery.CrashRecoveryHolds | pkg/indexer/concurrent_processor.go:466-483 | after any prefix of the deletions either no orphan is left or the next process detects the break and finds the same fork point |
| CrashRecovery.RollbackBeginsStanding | pkg/indexer/concurrent_processor.go:1284-1339 | in every run a rollback begins with proven orphans above a fork point the walk-back would still find, nothing having landed since |
| CrashRecovery.RunCrashRecovers | pkg/indexer/concurrent_processor.go:367-436 | crash recovery from whatever run led to the rollback: after any prefix of its deletions no orphan is left, or the next process detects the break and finds the same fork point |
| CrashRecovery.SafeAcrossProcesses | pkg/indexer/indexer.go:386-422 | over any number of killed and resumed processes the store is safe in every state |
| Documents.Stamper.StampBeforeWrite | pkg/chains/evm/link_stamper.go:52-108 | succeeds exactly for a known collection whose transaction and log documents name a transaction once the block is stored; then every document carries its derivable links |
| Documents.Stamper.RecordDocIDs | pkg/chains/evm/link_stamper.go:127-161 | the block identifier and the positional transaction identifiers are recorded, nothing else changes |
| Documents.IndexExact | pkg/chains/evm/link_stamper.go:127-161 | with distinct hashes the recorded index maps each transaction hash to that transaction's document |
| Documents.LookupPointsAtTx | pkg/chains/evm/link_stamper.go:52-108 | a looked-up link is the document of the transaction with that hash, or nothing when there is none |
| Documents.LinksCorrect | pkg/chains/evm/link_stamper.go:52-161 | after stamping group by group every transaction and log points at the block and every log and access-list entry at its own transaction |
| BlockWriter.Writer.AddDocsSkipExisting | pkg/defra/block_handler.go:622-669 | a commit adds exactly the written documents, each once; a reply without failure leaves every document stored that it did not report as taken, and skips nothing exactly when all were new; a failure adds none |
| BlockWriter.Writer.CreateDocsInTxn | pkg/defra/block_handler.go:542-592 | success means all documents were added by this call and each has a collected CID; new documents end as the reply says, with one CID each on success; when something exists, or is claimed to, the per-document fallback stores what is missing |
| BlockWriter.Writer.WriteBatchSkipExisting | pkg/defra/block_handler.go:598-615 | the batch fails exactly when something was there already, yet the missing documents are stored and exactly they are reported |
| BlockWriter.Writer.WriteBatchWithRetry | pkg/defra/block_handler.go:878-907 | new documents: up to two conflicts are survived and the next reply decides, three give the conflict and leave the store unchanged, a shutdown stops at the first, another failure is not retried; documents partly stored: the missing ones are added and the batch fails; a failed batch leaves the collector as it was |
| BlockWriter.Writer.CreateDocBatch | pkg/defra/block_handler.go:503-529 | over all batches the reported documents are exactly those added, all of them in order on success; new documents go through when each batch meets at most two conflicts |
| BlockWriter.Writer.WriteGroup | pkg/defra/block_handler.go:424-430 | the same for a group at its own or the default batch size |
| BlockWriter.TwoConflictsEach | pkg/defra/block_handler.go:878-907 | two conflicts on every batch in a row let all batches through |
| BlockWriter.Writer.StoreBlockDoc | pkg/defra/block_handler.go:467-500 | a new block document ends as the single reply says, without a retry; success adds it and its CID; failure adds nothing |
| BlockWriter.Writer.StoreBlockGroup | pkg/defra/block_handler.go:303-322 | the block group's protocol: stamp, write its first document, record its identifier |
| BlockWriter.Writer.StampWriteRecord | pkg/defra/block_handler.go:324-342 | one group's protocol: what is written is the stamped group, and it is recorded only when complete |
| BlockWriter.Writer.WriteGroups | pkg/defra/block_handler.go:324-342 | fail-fast over the groups; each collection files exactly its own documents added, each once and in order, also on partial failure |
| BlockWriter.LengthTestSuffices | pkg/defra/block_handler.go:432-464 | a collector that covers all documents and is no longer holds exactly their CIDs |
| BlockWriter.SignStoredBlock | pkg/defra/block_handler.go:432-464 | signs exactly when there was no error, signing is possible and CIDs and documents are equally many, and then over exactly the CIDs of the documents |
| BlockWriter.WriteBlock | pkg/defra/block_handler.go:271-342 | the report names each document added exactly once and nothing else; without error these are all documents of all groups, as stamped |
| BlockWriter.Store | pkg/defra/block_handler.go:271-360 | on every outcome the report names each document committed by this call exactly once and no other; a signature exists exactly when there was no error, signing is possible and CIDs and documents are equally many, and then covers exactly the CIDs of all documents committed by this call; a block of new documents, whose own document meets no failure and whose batches meet at most two conflicts each, is stored and signed |
| BlockWriter.StoredLinksCorrect | pkg/defra/block_handler.go:311-352 | every link of an error-free stored block points at this block's document and at the right transaction |
| AccessList.JoinInjective | pkg/chains/evm/converter.go:286-288 | comma-joined storage keys determine the keys when they are non-empty and comma-free |
| AccessList.KeyInjective | pkg/chains/evm/converter.go:286-288 | the joined key determines transaction, address and keys for separator-free parts |
| AccessList.EmptyKeyCollides | pkg/chains/evm/converter.go:286-288 | an empty storage key has the same joined key as no key |
| AccessList.CommaCollides | pkg/chains/evm/converter.go:286-288 | a storage key with a comma has the same joined key as two storage keys |
| AccessList.CleanTellsApart | pkg/chains/evm/converter.go:286-288 | separator-free, non-empty parts are enough for the key to tell all items of a block apart |
| AccessList.KeyDedupExactIff | pkg/chains/evm/converter.go:253-288 | de-duplication by string key keeps exactly the first occurrences if and only if equal keys among the items at hand mean equal items |
| AccessList.BuildALEDocs | pkg/chains/evm/converter.go:253-275 | the emitted documents carry, field by field, address, keys and block number of the first occurrences of each transaction, address and key list in block order, with the transaction hash beside each, if and only if the key tells the items of the block apart, as it does for separator-free parts |
| AccessList.FirstBySameKeepsFirsts | pkg/chains/evm/converter.go:253-275 | content de-duplication keeps every item, none twice, ordered by first occurrence |
| AccessList.FirstOccurrencesUnique | pkg/chains/evm/converter.go:253-275 | that description determines the result |
| AccessList.InjectiveKeyKeepsSame | pkg/chains/evm/converter.go:253-288 | where the key tells items apart, de-duplication by string key equals de-duplication by content |
| AccessList.EmittedAreWritable | pkg/chains/evm/converter.go:253-275 | once stamped, the emitted documents have pairwise different identifiers |
| Receipts.EqualFoldIff | pkg/chains/evm/fetcher.go:355-385 | hashes agree up to case exactly when they agree letter by letter |
| Receipts.ReceiptHashesMatch | pkg/chains/evm/fetcher.go:355-362 | true exactly when every receipt is present and carries the pinned block hash up to case |
| Receipts.BatchCoversTransactions | pkg/chains/evm/fetcher.go:369-385 | true exactly when every transaction has a receipt up to case |
| Receipts.MergeReceiptsOntoTransactions | pkg/chains/evm/fetcher.go:321-350 | in place, each transaction takes status (success only for "1"), gas used, cumulative gas and gas price of the last receipt with exactly its hash, keeping hash and payload, and is unchanged without one |
| Receipts.FetchReceiptsIndividually | pkg/chains/evm/fetcher.go:275-312 | whatever order the workers finish in, each slot holds its pinned receipt or a hole |
| Receipts.FetchTransactionsAndReceipts | pkg/chains/evm/fetcher.go:222-264 | succeeds exactly when the batch is usable or every single receipt is pinned; receipts used all carry the pinned hash; on either path a transaction takes, field by field, the outcome of the last receipt of its own, a pinned one, if and only if a returned receipt carries exactly its hash, and is otherwise unchanged; failure changes no transaction |
| Receipts.BuildReceiptMap | pkg/chains/evm/converter.go:210-218 | the map the receipts are looked up in, the last receipt of a hash counting |
| Receipts.BuildLogDocs | pkg/chains/evm/converter.go:221-236 | the logs of each transaction's receipt stand right after those of the transactions before it, in their own order, and there are no others |
| Receipts.ByHashExact | pkg/chains/evm/converter.go:210-218 | a hash is indexed exactly when a receipt carries it, under the last of those receipts |
| Receipts.NodeByHash | pkg/chains/evm/fetcher.go:321-350 | for a node that answers by hash the index does not depend on order, repeats or extras |
| Receipts.PathsAgree | pkg/chains/evm/fetcher.go:222-350 | whenever both paths succeed and the batch carries every hash exactly, merged transactions and log documents are identical |
| Receipts.PathsAgreeIff | pkg/chains/evm/fetcher.go:222-350 | the two paths give the same transactions if and only if each hash is carried by the batch or its outcome equals what the transaction held already |
| Receipts.OutcomeIff | pkg/chains/evm/fetcher.go:321-350 | for every pinned receipt list, a transaction takes, field by field, the outcome of the last receipt of its own, a pinned one, if and only if some receipt carries exactly its hash, and is unchanged otherwise |
| Receipts.OneCaseCarries | pkg/chains/evm/fetcher.go:369-385 | a covering batch with hashes in one case carries every hash exactly |
| Receipts.OwnAnswersCarry | pkg/chains/evm/fetcher.go:275-312 | answers for the transactions asked about carry every hash exactly |
| Receipts.CaseMismatchKeepsDefaults | pkg/chains/evm/fetcher.go:321-385 | a batch that spells a hash in the other case is accepted as covering and leaves the transaction unchanged |
| Receipts.WrongHashKeepsDefaults | pkg/chains/evm/fetcher.go:275-350 | a single answer for another transaction of the same block is accepted, since only the block hash is compared, and leaves the transaction unchanged |
| DocIdText.EncodeDecodes | pkg/pruner/indexer_queue.go:358-372 | hexadecimal encoding decodes to the same bytes |
| DocIdText.LowerHexReencodes | pkg/pruner/indexer_queue.go:358-372 | lower-case hexadecimal text is re-encoded unchanged |
| DocIdText.DecodeIff | pkg/pruner/indexer_queue.go:358-372 | text decodes exactly when it is an even number of hexadecimal digits of either case |
| DocIdText.DecodeIgnoresCase | pkg/pruner/indexer_queue.go:358-372 | the case of its letters does not change what a text decodes to |
| DocIdText.ExtractIff | pkg/pruner/indexer_queue.go:349-372 | an identifier has a packed form exactly when, hyphens aside, 32 hexadecimal digits follow its first hyphen |
| DocIdText.RestoreThenExtract | pkg/pruner/indexer_queue.go:349-377 | restoring and extracting gives the same 16 bytes, and restored identifiers are canonical |
| DocIdText.SurvivesPackingIff | pkg/pruner/indexer_queue.go:349-377 | an identifier survives packing unchanged if and only if it is canonical: the prefix and the lower-case text form of section 4 of RFC 9562 |
| DocIdText.PackDocIDs | pkg/pruner/indexer_queue.go:380-393 | fails exactly when some identifier is malformed, else 16 bytes per identifier in order |
| DocIdText.UnpackDocIDs | pkg/pruner/indexer_queue.go:396-408 | one restored identifier per 16 bytes |
| DocIdText.PackRoundTrip | pkg/pruner/indexer_queue.go:380-408 | canonical lists come back unchanged |
| PruneQueue.IndexerQueue.TrackBlockDocIDs | pkg/pruner/indexer_queue.go:152-195 | appends one entry packing every given identifier; any malformed identifier leaves the queue unchanged |
| PruneQueue.TrackedDocsSurvive | pkg/pruner/indexer_queue.go:152-195 | canonical identifiers come out of an entry exactly as tracked, collection by collection |
| PruneQueue.EntryDocCount | pkg/pruner/indexer_queue.go:215-224 | the count is block, packed lists and signature, in any map order |
| PruneQueue.CountIsAllDocs | pkg/pruner/indexer_queue.go:215-224 | the count is the number of documents the entry has in all its collections together, its block document among them |
| PruneQueue.BuildDrainResult | pkg/pruner/indexer_queue.go:296-323 | block documents under the block collection, everything else under its own collection |
| PruneQueue.IndexerQueue.Drain | pkg/pruner/indexer_queue.go:269-291 | nothing when the queue is short enough; else keeps exactly that many entries, drained before remaining in block order, none lost |
| PruneQueue.IndexerQueue.DrainByDocCount | pkg/pruner/indexer_queue.go:228-265 | drains the shortest oldest prefix with enough documents, or everything |
| PruneQueue.OldestDrained | pkg/pruner/indexer_queue.go:228-291 | every drained block number is at most every remaining one |
| PruneQueue.DrainConserves | pkg/pruner/indexer_queue.go:296-323 | drained plus remaining documents are exactly the queued ones in every collection, if and only if the block collection is named and holds nothing else of the drained blocks |
| PruneQueue.Pruner.RunIndexerQueuePrune | pkg/pruner/pruner.go:255-287 | a queue above the target is drained to the capped or final length and what was pruned is counted; a shorter queue is left alone and the stored heights are pruned instead |
| PruneQueue.Pruner.FilterBasedPrune | pkg/pruner/pruner.go:359-391 | exactly the stored heights fewer than the target below the highest remain, at most the target of them, and the counter grows by the excess of the span over the target |
| PruneQueue.CyclesReachTarget | pkg/pruner/pruner.go:255-287 | repeated cycles without arrivals fall by the cap, reach exactly the target and never go below |
| Merkle.SplitUnique | pkg/snapshot/signing.go:39-68 | the left subtree's size is the only power of two below the leaf count and at least half of it |
| Merkle.LevelKeepsRoot | pkg/snapshot/signing.go:51-65 | pairing neighbours with an odd one promoted leaves the tree root unchanged |
| Merkle.PairUp | pkg/snapshot/signing.go:53-64 | one pass through the reused 64-byte buffer pairs the level |
| Merkle.ComputeSnapshotMerkleRoot | pkg/snapshot/signing.go:39-68 | the loop ends and equals the recursive tree root over the hashed roots; no roots give none |
| Merkle.RootBindsList | pkg/snapshot/signing.go:39-68 | equal-length root lists with one snapshot root are equal when the hash tells apart the strings both computations hash |
| SnapshotRange.AlignUpIsNearest | pkg/snapshot/snapshot.go:351-373 | the boundary chosen is the lowest one at or above the height |
| SnapshotRange.Snapshotter.CheckAndSnapshot | pkg/snapshot/snapshot.go:286-342 | a cycle on a readable store exports the range right after the last one exactly when the store holds all of it, or, when the block after the last one is gone, the range from the least boundary that could start one; else none; only an export moves the last block and the count |
| SnapshotRange.RangeIsSound | pkg/snapshot/snapshot.go:351-373 | an exported range is full, inside the stored range, above the last one, and aligned when the last end was |
| SnapshotRange.ExportsIff | pkg/snapshot/snapshot.go:351-373 | the rule for every single cycle: a range is exported exactly when the store holds a full one after the last, and it is the next or the least aligned one |
| SnapshotRange.RunExportsIff | pkg/snapshot/snapshot.go:286-373 | over any run every cycle follows that rule from the end of the last range exported before it |
| SnapshotRange.ContinuesIff | pkg/snapshot/snapshot.go:351-373 | a range continues the last one exactly when the store still reaches down to the block after it |
| SnapshotRange.RunIsDisjoint | pkg/snapshot/snapshot.go:286-373 | over any run of cycles later ranges start after earlier ones end |
| SnapshotRange.RunRangesAreSound | pkg/snapshot/snapshot.go:286-373 | every range of a run is full, inside its cycle's stored range, and aligned when the run starts on a boundary |
| SnapshotRange.GapFreeIff | pkg/snapshot/snapshot.go:286-373 | two successive ranges leave no gap if and only if the lowest stored block had not passed the earlier end + 1 |

## Left out

- Goroutines, locks and channels as such: the processor is a state machine over values, one atomic step per channel operation or locked section; aliasing and data races inside a step are not modelled.
- Wall-clock delays, rate limiting, back-off sleeps and the per-store retry loop: a store or fetch finishes in any way after any time.
- A nil reorg handler: the processor is modelled with a rollback handler in place.
- Header numbers in the walk-back: the loop does not compare a header's number with the height it asked for, and the model takes a parent to sit one below its child.
- Safety.StoreStaysSafe: assumes that fetched blocks carry non-empty hashes and that nothing is stored at or above the first start height; blocks served without a hash skip the continuity check.
- Recovery.ReorgIsRepaired: says that a repairing continuation exists, with a node that keeps serving one branch, not that every schedule reaches it; a node may switch branches for ever.
- CrashRecovery.RunCrashRecovers: assumes a hole-free orphan range, because with a hole the resumed walk-back stops at it, as `HoleHidesFork` shows.
- The stale-pinned episode is modelled in full, but its rollback settles only heights its walk-back visits; `StaleHeightVisitedIff` says which.
- Rollback.DeleteOrder: the alphabetical sort of unregistered collections is left out; they are taken in the order given, and the claims hold for every order.
- Documents.Stamper.StampBeforeWrite: documents are values, so stamping returns new documents instead of mutating maps in place.
- BlockWriter.Store: parsing of the block number, the signature document itself and signing of already stored blocks are left out; signing is a yes-or-no gate.
- Receipts.FetchTransactionsAndReceipts: nil transactions, which the fetcher never builds, are left out; case folding is the ASCII one.
- PruneQueue.IndexerQueue.TrackBlockDocIDs: the queue's file format and its checkpoints are left out.
- PruneQueue.Pruner.RunIndexerQueuePrune: the purge of the drained documents and its errors are left out.
- Merkle.RootBindsList: SHA-256 is a function parameter with 32-byte results, required to be collision-free only on the strings the two computations hash.
- SnapshotRange.Snapshotter.CheckAndSnapshot: the export, its signature and the snapshot retention limit are left out.
- The documentation of `extractUUID` says the queue learns its identifier prefix from the first identifier seen; the code always restores the fixed prefix, and the model follows the code.
- The database, GraphQL text, RPC transport, key handling, HTTP server, peer-to-peer networking, configuration loading, the start and stop handshake and snapshot verification are not part of this model.
