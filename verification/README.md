# A verified model of the chain, cache and finality state of a Substrate client

A Substrate client keeps one tree of blocks and many fast indexes over it. Each index is only useful if it stays consistent with the tree while forks grow, heads move, blocks become final and old data is thrown away. This project models those indexes in Dafny and proves that they do, or says exactly when they do not.

Everything rests on one definition of the tree (`ForkTree.dfy`). A hash is identified with the header it was computed from, so hashing is collision free and no header is its own ancestor; a block is a header whose ancestry down to the one genesis block is numbered consecutively. Nothing else about headers, storage or votes is assumed.

Classes model the objects the client updates in place: the recency-ordered maps, the shared cache and the states reading through it, the leaf set, the block database, the client, the header metadata cache, the voter environment, the authority set, the light header database and the notification hub. Each of their methods is proved equal to a function on values, and the theorems about whole runs are proved about those functions. The compare-and-set protocol is a state machine over the steps of arbitrarily many threads.

| file | what it models |
|---|---|
| `ForkTree.dfy`, `TreeRoutes.dfy` | the block tree, routes between blocks, cached common ancestors, the ancestry test |
| `LruMaps.dfy`, `StorageCaches.dfy`, `CachingStates.dfy` | the shared state cache and the read, sync and commit paths |
| `CacheHits.dfy` | which reads the shared cache serves, what it forgets and what a commit leaves in it |
| `CacheCoherence.dfy`, `CacheRuns.dfy`, `HashStaleness.dfy`, `SplitStaleness.dfy` | when cached reads are true over whole runs, and runs after which they are not |
| `LeafSets.dfy`, `ChainIndex.dfy`, `ChainDb.dfy`, `FinalitySafety.dfy` | leaves, the number index, commits, and finality safety over every run |
| `ChangesTrieRoots.dfy` | changes trie root lookup from an anchor block |
| `LocalStorage.dfy` | compare-and-set over a garbage-collected map of key locks |
| `CompletedRounds.dfy`, `VoterState.dfy` | the window of completed rounds and the persisted votes of a GRANDPA voter |
| `VoteTargets.dfy`, `Justifications.dfy`, `ForcedChanges.dfy` | vote targets, justification building and checking, forced authority changes |
| `Cht.dfy`, `LightStorage.dfy` | canonical hash tries and the light client's pruned header database |
| `Notifications.dfy` | the storage notification index |

The main results, with the conditions they hold under:

- Every read of a value through any open state, at any block of any fork, after any run of imports, reorganizations, head moves, evictions and disposals, is the true value (`CacheRuns.ReadsAreTrue`). The one exception is the import of a final block whose parent is off the best chain: it must leave the cache wiped, and `CacheRuns.SplitKeepsIff` says exactly when it does. Reads of value hashes are true after any run whose head moves are harmless (`CacheRuns.HashReadsAreTrue`).
- Over any run of imports and finalizations that never imports a final block off the best chain, the best block stays on the finalized chain and canonical history at or below finality never changes (`FinalitySafety.FinalizedPrefixIsForever`), for the real backend operations (`FinalitySafety.Client.Serve`). Under the longest-chain rule the best block is as high as any block accepted, and ties never move it (`FinalitySafety.HighestWins`).
- Compare-and-set is linearizable for any number of threads, beside reads and plain writes that disturb no pending decision, and every read answers what was last written (`LocalStorage.RunsAreLinearizable`). With any plain writes at all it leaks no lock and never deadlocks (`LocalStorage.LockMapIsExact`, `LocalStorage.NoDeadlock`).
- A voter that completes rounds in increasing order and proposes before it prevotes never records two different votes of one kind in a round, across write failures and restarts (`VoterState.NoEquivocation`), and any later restart reads back the very vote that was cast while its round is tracked (`VoterState.RestartShowsTheVoteCast`).
- A light client keeps every finalized header stored or committed to by the trie of its range, on the best chain or off it, as long as every trie ends below the fork, new heads share the pruned numbers and no pruned header is imported again (`LightStorage.NothingLost`).
- Each notified subscriber reads exactly the changes it asked for, each with its trie, key and value and in the block's order, when the child entries of each subscription are covered by the filters stored for it (`Notifications.StorageNotifications.Trigger`).

Properties one might expect that the code does not have. Each comes with a concrete case and the exact condition under which the code does have it:

| expectation | where it fails | exact condition |
|---|---|---|
| cached hashes are right after a reorganization | `HashStaleness.HashReadCanBeStale` | `CacheRuns.SyncKeepsHashesIff` |
| cached values are right after importing a final block off the best chain | `SplitStaleness.ReadCanBeStale` | `CacheRuns.SplitKeepsIff` |
| importing a final block keeps best at or above finality | `FinalitySafety.SplitHeadBreaksFinality` | `FinalitySafety.HandleSoundIff` |
| a plain write to local storage is atomic beside compare-and-set | `LocalStorage.PlainSetCanBreakAtomicity` | `LocalStorage.DisturbedWriteIff` in the order of effects, `LocalStorage.EitherOrderIff` in either order |
| a leaf in memory is a leaf on disk | `LeafSets.ReAddedLeafIsLost` | `LeafSets.AdditionPersistsIff` |
| recorded votes are never lost | `VoterState.UndisciplinedVotesAreLost` | `VoterState.ProposalKeepsIff`, `VoterState.CompletionKeepsIff` |
| one pending forced change per fork | `ForcedChanges.OutOfOrderBothDue` | `ForcedChanges.InOrderIff` |
| a light client's tries commit to the finalized chain | `LightStorage.FinalizingForkLoses` | `LightStorage.State.FinalizedExactIff` |
| a light client's index lists the best chain | `LightStorage.CachedRouteBreaksIndex` | `LightStorage.State.HeadedExactIff`, `LightStorage.State.ImportedExactIff` |
| closing a subscription removes it from the index | `Notifications.RepeatedChildKeyGoesStale` | `Notifications.Hub.ListenThenRemoveIff` |

Where the code and its comments disagree the model follows the code. `client/api/src/notifications.rs` says that empty notifications are not sent; the code sends one to every subscriber to all top-level keys as soon as any subscriber's child key changed, and `Notifications.CollectExact` says who exactly gets a message. The light database only logs a head change that reverts finality; such a change keeps its columns exact, and what goes wrong goes wrong later, when a trie is built along the best chain. `client/finality-grandpa/src/voting_rule.rs` says that three quarters of the chain are rounded up; the code rounds down when the distance is three more than a multiple of four, and up to a whole block otherwise, which `VoteTargets.RoundedUpIff` states.

## Model

| member | source | states |
|---|---|---|
| `ForkTree.CommonIsHighest` | primitives/blockchain/src/header_metadata.rs:27-92 | The block both chains meet in is the highest one on both: every other block on both chains lies below it. |
| `ForkTree.RouteMembers` | primitives/blockchain/src/header_metadata.rs:162-182 | Moving between two blocks leaves exactly the blocks of the first chain that are not on the second, and enters exactly the converse. |
| `TreeRoutes.ComputeTreeRoute` | primitives/blockchain/src/header_metadata.rs:95-151 | The two-ended walk succeeds exactly when every header between the ends and their common block is stored; the retracted part runs from the old end down, the enacted part up to the target, and the pivot is the highest common block. |
| `TreeRoutes.HeaderMetadata.Get` | client/db/src/lib.rs:485-496 | A header is found exactly when it is stored, and whatever shortcut the cache has for it leads to a lower block of the same chain. |
| `TreeRoutes.HeaderMetadata.Insert` | primitives/blockchain/src/header_metadata.rs:250-252 | Caching a sound shortcut, with any eviction at all, leaves only sound shortcuts. |
| `TreeRoutes.HeaderMetadata.LowestCommonAncestor` | primitives/blockchain/src/header_metadata.rs:33-92 | Whatever shortcuts were cached earlier, jumping through them, then walking parents and recording new ones, returns the highest common block of any two stored headers. |
| `TreeRoutes.HeaderMetadata.IsDescendentOf` | client/api/src/lib.rs:51-78 | For stored blocks the answer is true exactly for proper descendants; for a block not stored yet it is decided through its parent. |
| `LruMaps.ShrunkIsLeastSuffix` | client/db/src/storage_cache.rs:122-131 | Eviction drops a prefix of the recency order, ends within the limit, and no shorter prefix would have been enough. |
| `LruMaps.LruMap.Remove` | client/db/src/storage_cache.rs:93-100 | Removal keeps the size counter equal to the sum over stored entries; neither subtraction underflows. |
| `LruMaps.LruMap.RemoveAll` | client/db/src/storage_cache.rs:173-180 | Removing a set of keys one by one leaves the other entries in their order, whatever order the keys are taken in. |
| `LruMaps.LruMap.Insert` | client/db/src/storage_cache.rs:102-132 | Replacing or appending and then evicting keeps the counter exact, ends within the limit and leaves the least eviction of the updated entries, whether or not the underlying map moves a replaced entry. |
| `LruMaps.LruMap.Get` | client/db/src/storage_cache.rs:134-138 | Reading returns the stored value, makes its entry the most recently used, and moves no other. |
| `LruMaps.RefreshedOrder` | client/db/src/storage_cache.rs:134-138 | A read moves its entry to the end and leaves any two other entries in the order they were used; reading an absent key changes nothing. |
| `LruMaps.PutOrder` | client/db/src/storage_cache.rs:110-121 | A new entry is the most recently used, a replaced one stays in place or becomes it, as the underlying map has it, and all others keep their order. |
| `LruMaps.LastUsedStays` | client/db/src/storage_cache.rs:123-131 | The entry used last is evicted last: it survives any eviction exactly when it fits the limit on its own. |
| `LruMaps.AddedIsCached` | client/db/src/storage_cache.rs:102-132 | A value that fits on its own is found after it is added, unless it was only replaced in place. |
| `LruMaps.TotalAt` | client/db/src/storage_cache.rs:102-132 | Every entry counts with the size of its key and of its value. |
| `LruMaps.AddAllWithRoom` | client/db/src/storage_cache.rs:347-383 | With room for a list of values nothing is evicted: the last value given for a key is found, and every other key is as before. |
| `LruMaps.Drain` | client/db/src/storage_cache.rs:341-355 | Moving an unordered map into the recency order adds each of its entries exactly once. |
| `StorageCaches.Cache.constructor` | client/db/src/storage_cache.rs:224-237 | The limits of the value maps are the integral parts of their shares of the memory and together fit it, the top-level one being zero when the child part exceeds the whole; the hash map has its own fixed limit; keys and values count by their lengths, a hash by thirty-two and an absent value by zero. |
| `StorageCaches.Cache.Sync` | client/db/src/storage_cache.rs:163-215 | Walking the enacted and then the retracted blocks one by one equals dropping all keys those blocks changed and re-flagging them, or wiping everything when one of them is not listed. |
| `CachingStates.IsAllowed` | client/db/src/storage_cache.rs:427-468 | A lookup may use the shared cache exactly when some listed canonical block is reached from the state's block through listed parents and no block listed before it touched the key. |
| `StorageCaches.AllowedIff` | client/db/src/storage_cache.rs:427-468 | The recursive walk decides that condition, both ways. |
| `CachingStates.Flatten` | client/db/src/storage_cache.rs:372-376 | Child changes are flattened in two nested loops into the specified list. |
| `CachingStates.FlatChildAt` | client/db/src/storage_cache.rs:372-376 | The changes of each child trie stand right after those of the tries before it, in their order, each under its trie's name, and nothing else is listed. |
| `CachingStates.DropBlock` | client/db/src/storage_cache.rs:326-331 | The committed block and only it is left out of the enacted blocks. |
| `CachingStates.CachingState.Storage` | client/db/src/storage_cache.rs:481-499 | A read goes to the local values, then to the shared ones when allowed, then to the state itself, with the recency and local-cache effects of each case. |
| `CachingStates.CachingState.StorageHash` | client/db/src/storage_cache.rs:501-518 | The same for value hashes. |
| `CachingStates.CachingState.ChildStorage` | client/db/src/storage_cache.rs:520-543 | The same for child tries. |
| `CachingStates.CachingState.Propagate` | client/db/src/storage_cache.rs:336-356 | Local values reach the shared caches once each and the local caches end empty. |
| `CachingStates.CachingState.CommitChanges` | client/db/src/storage_cache.rs:358-403 | A committed block is listed in descending number order within the bound, and a best block's changes replace cached values and drop cached hashes. |
| `CachingStates.CachingState.SyncCache` | client/db/src/storage_cache.rs:313-404 | Sync, hand-over and commit in sequence have the combined effect the run theorems are stated about; the local values are then empty exactly when they were handed over. |
| `CacheHits.ReadTopPaths` | client/db/src/storage_cache.rs:481-499 | A read answers the state's own value; else, where allowed, the shared entry whatever the backing state holds; else the backing state's value, which it remembers. |
| `CacheHits.ReadHashPaths` | client/db/src/storage_cache.rs:501-518 | The same for hashes of values. |
| `CacheHits.ReadChildPaths` | client/db/src/storage_cache.rs:520-543 | The same for child keys. |
| `CacheHits.SecondReadIsCached` | client/db/src/storage_cache.rs:481-499 | A key is fetched from the backing state at most once: a second read gives the same value whatever that state would say. |
| `CacheHits.SecondHashReadIsCached` | client/db/src/storage_cache.rs:501-518 | The same for hashes of values. |
| `CacheHits.SecondChildReadIsCached` | client/db/src/storage_cache.rs:520-543 | The same for child keys. |
| `CacheHits.SyncedForgets` | client/db/src/storage_cache.rs:163-215 | While every block of the route is listed, exactly the values one of them changed are forgotten and exactly their canonical marks are set. |
| `CacheHits.SyncedWipes` | client/db/src/storage_cache.rs:207-214 | As soon as one is not listed, all values, hashes and listed blocks go. |
| `CacheHits.CommitLists` | client/db/src/storage_cache.rs:359-405 | A committed block is listed with exactly the keys it changed and the best mark it was given, and only the last of twelve listed blocks makes way for it. |
| `CacheHits.BestCommitFills` | client/db/src/storage_cache.rs:326-386 | With room for it, committing the best block leaves for every key its last change, else what the state had read itself, else what the moved head left; cached hashes of changed keys are gone. |
| `CacheCoherence.AllowedMeansHeadValue` | client/db/src/storage_cache.rs:436-467 | If the walk from any block through the recent modifications ends at a listed canonical block without meeting the key, that block and the head have the same value for the key. |
| `CacheCoherence.AllowedSound` | client/db/src/storage_cache.rs:425-468 | Whenever a lookup is allowed at a block of any fork, the block and the head agree on the key. |
| `CacheCoherence.AppliedIsLast` | client/db/src/storage_cache.rs:371-386 | The storage a block leaves holds, under every key, its last change of it or what its parent had. |
| `CacheCoherence.SyncKeepsCoherence` | client/db/src/storage_cache.rs:163-215 | Synchronizing along the route between any two heads keeps every cached value equal to the new head's value and the modification list consistent. |
| `CacheCoherence.InsertedOk` | client/db/src/storage_cache.rs:378-402 | Listing a new block, on or off the best chain and with the oldest entry dropped, keeps the list descending, correctly flagged and without gaps between a listed canonical block and the head. |
| `CacheRuns.CommitKeepsCoherence` | client/db/src/storage_cache.rs:358-403 | Committing a block on any parent keeps the cache coherent with the head it leaves. |
| `CacheRuns.ImportEffect` | client/db/src/lib.rs:1160-1315 | An imported block is added with its parent's storage as changed, becomes the head as best, or leaves its parent as head when it is final off the best chain, and closes the state it was built on. |
| `CacheRuns.OtherEffect` | client/db/src/lib.rs:1263-1315 | Reads, opened and disposed states change no block; only a head mark moves the head, to the block it names. |
| `CacheRuns.StepKeepsInv` | client/db/src/storage_cache.rs:313-404 | Opening states, reads, best and non-best imports, head moves and disposals all keep the cache coherent and every open state's local values true. |
| `CacheRuns.SplitKeepsIff` | client/db/src/lib.rs:1263-1315 | Importing a final block whose parent is off the best chain, which commits the block and then syncs the same route again for the head mark, keeps the cache coherent if and only if some block of the route will have dropped out of the list of recent blocks, so that the second sync wipes. |
| `CacheRuns.StepKeepsInvIff` | client/db/src/lib.rs:1263-1315 | Every operation, split imports included, keeps the invariant under exactly that condition. |
| `CacheRuns.RunKeepsInv` | client/db/src/storage_cache.rs:313-543 | So does every run of operations whose split imports meet it. |
| `CacheRuns.ReadsAreTrue` | client/db/src/storage_cache.rs:481-543 | After any run from an empty cache whose split imports wipe it, with any forks, reorganizations, evictions and wipes, every top-level and child read through any open state returns that block's true value. |
| `CacheRuns.SyncKeepsHashesIff` | client/db/src/storage_cache.rs:166-206 | Moving the head of a coherent cache keeps cached hashes right if and only if the cache is wiped, or every cached hash of a key that a block of the route changed belongs to a value that came out the same. |
| `CacheRuns.RunKeepsHashes` | client/db/src/storage_cache.rs:313-404 | Every run whose head moves are all harmless in that sense, and whose split imports wipe the cache, keeps all cached hashes right, imports and hand-overs included. |
| `CacheRuns.HashReadsAreTrue` | client/db/src/storage_cache.rs:501-518 | After any such run every hash read through any open state is the hash of the true value. |
| `CacheRuns.AdvancingIsHarmless` | client/db/src/storage_cache.rs:313-334 | In particular a head that only advances to a child imported on top of it moves harmlessly, so runs without reorganizations and split imports qualify. |
| `HashStaleness.HashReadCanBeStale` | client/db/src/storage_cache.rs:501-518 | A concrete run with one reorganization after which a hash read returns the hash of another fork's value. |
| `SplitStaleness.ReadCanBeStale` | client/db/src/lib.rs:1263-1315 | A concrete run with one split import after which a state at the finalized block reads its parent's value from the cache instead of its own. |
| `LeafSets.AdditionPersistsIff` | client/src/leaves.rs:199-211 | A pending addition reaches the database exactly when its hash is not also pending removal. |
| `LeafSets.ReAddedLeafIsLost` | client/src/leaves.rs:104-149 | A leaf that a finalization displaces and an import adds again before one write is held in memory and lost from the database by that write. |
| `LeafSets.UndoRestores` | client/src/leaves.rs:48-53 | Appending the merged leaves displaced by any series of finalizations restores the map exactly, and nothing is overwritten. |
| `LeafSets.ListBelowContents` | client/src/leaves.rs:194-196 | The listing holds each leaf once, by descending number. |
| `LeafSets.LeafSet.ReadFromDb` | client/src/leaves.rs:80-101 | Reading back rebuilds exactly the stored leaves, with nothing pending. |
| `LeafSets.LeafSet.Import` | client/src/leaves.rs:104-129 | The block becomes a leaf and its parent, if it was one at the height below, is displaced; the set stays well formed exactly when the hash was not held already, and the pending changes still describe it exactly unless the hash was pending removal. |
| `LeafSets.LeafSet.FinalizeHeight` | client/src/leaves.rs:137-149 | Exactly the leaves below the number are displaced, returned and queued for removal. |
| `LeafSets.LeafSet.UndoFinalization` | client/src/leaves.rs:264-273 | Given everything a series of finalizations displaced, the set is exactly what it was before them and nothing stays pending, so memory and database agree exactly when the database still holds the state from before them. |
| `LeafSets.LeafSet.Hashes` | client/src/leaves.rs:194-196 | Exactly the leaves, without repetition, in descending number order. |
| `LeafSets.LeafSet.PrepareTransaction` | client/src/leaves.rs:199-211 | Writing the pending changes stores exactly the leaves in memory and clears the queues. |
| `LeafSets.LeafSet.RemoveLeaf` | client/src/leaves.rs:223-244 | True and removed exactly when the hash is a leaf of that number; an emptied height disappears. |
| `ChainIndex.HeadOpsReindex` | client/db/src/lib.rs:1013-1052 | Deleting the retracted numbers, inserting the enacted ones and putting the new head turns the index of the old chain into the index of the new one, for longer, shorter and ancestor heads. |
| `ChainIndex.AgreeIff` | primitives/blockchain/src/header_metadata.rs:27-92 | Two chains have the same block at a height exactly up to the height of their common block. |
| `ChainIndex.DoubleHeadIndex` | client/db/src/lib.rs:1263-1274 | An operation that both imports a best block and marks its parent as head leaves the block's number in the index exactly when the old chain was lower. |
| `ChainIndex.LeavesAfterImport` | client/src/leaves.rs:104-129 | The childless blocks at or above finality after an import are the old ones without the parent and with the block. |
| `ChainDb.SequentialIsChain` | client/db/src/lib.rs:1057-1069 | A list that passes the sequential checks is one chain of known blocks above the last finalized one. |
| `ChainDb.LogGrows` | client/db/src/lib.rs:1145-1158 | What an accepted operation finalizes extends the finalized chain by consecutive children. |
| `ChainDb.Backend.SetHeadWithTransaction` | client/db/src/lib.rs:994-1055 | The head change is refused exactly when the target is unknown or the finalized block would be retracted; otherwise it lists exactly the route. |
| `ChainDb.Backend.FinalizeBlocks` | client/db/src/lib.rs:1145-1158 | Blocks are finalized in turn exactly when each is a known child of the previous one, and the leaf set follows. |
| `ChainDb.Backend.CommitPending` | client/db/src/lib.rs:1160-1261 | The pending block's part: accepted exactly when its head change is possible and, if final, it is a child of the last finalized block; the leaf set gains it and is flushed. |
| `ChainDb.Backend.PrepareHead` | client/db/src/lib.rs:1263-1280 | The head mark is accepted exactly for a stored block whose route spares the finalized one. |
| `ChainDb.Backend.TryCommitOperation` | client/db/src/lib.rs:1134-1323 | An operation succeeds under an exact condition on the tree and then yields the new headers, index, best and finalized blocks and exact leaf set; a failed one leaves the database and the in-memory heads untouched, and the leaf set where the failing part left it. |
| `FinalitySafety.HandleSoundIff` | client/src/client.rs:862-943 | A request keeps the best block at or above the finalized one if and only if it is not an acceptable final import, by guards known beforehand, whose parent is off the best chain; finality never moves sideways. |
| `FinalitySafety.ImportAcceptedIff` | client/src/client.rs:836-943 | An import is accepted exactly for a new block above finality on a known parent which, if it is to be best, descends from the finalized block; a refused one changes nothing. |
| `FinalitySafety.ForkChoiceIsKept` | client/src/client.rs:912-923 | Under the longest-chain rule an accepted block becomes best exactly when it is higher than the best one; under a custom rule exactly when the caller says so. |
| `FinalitySafety.FinalImportIsFinal` | client/src/client.rs:862-923 | A block accepted as final is the finalized one and reported as new best; best is that block, or its parent when that was off the best chain. |
| `FinalitySafety.FinalizeMovesFinality` | client/src/client.rs:1042-1102 | Finalizing succeeds exactly for known blocks at or above the finalized one, moves finality there, and moves best exactly when the block is off the best chain. |
| `FinalitySafety.HighestWins` | client/src/client.rs:912-915 | Over any run of longest-chain imports no accepted block is higher than best, and best only moves to a strictly higher block. |
| `FinalitySafety.FinalizedPrefixIsForever` | client/src/client.rs:1042-1102 | Over any run without such an import, best stays on the finalized chain, finality only advances along one chain, and no canonical hash at or below the finalized number ever changes. |
| `FinalitySafety.SplitHeadBreaksFinality` | client/db/src/lib.rs:1263-1280 | A concrete import of that kind after which the best block is below the finalized one. |
| `FinalitySafety.Client.ApplyFinality` | client/src/client.rs:1042-1102 | Finalizing is possible exactly for a known block above or at the finalized one; the list is the chain between, and a head mark is set exactly when the block is off the best chain. |
| `FinalitySafety.Client.Finalize` | client/src/client.rs:1042-1102 | Through the real backend, finalization has the specified effect and keeps index, heads and leaves consistent. |
| `FinalitySafety.Client.Import` | client/src/client.rs:836-963 | Import has the specified effect and response in every case; a non-final block under the longest-chain rule becomes best exactly when it is higher than the best one, a final one is finalized; the backend stays consistent exactly when the head is not split. |
| `FinalitySafety.Client.Serve` | client/src/client.rs:836-1102 | Any series of requests is served with the backend consistent throughout and the state the specification's run predicts. |
| `ChangesTrieRoots.Root` | client/db/src/lib.rs:763-808 | When the lookup succeeds and which block it reads from: the anchor's own ancestor exactly when the block is not finalized or lies at or below the fork of the anchor and the finalized chain, and always when the two lie on one chain. |
| `LocalStorage.StepKeepsInv` | client/db/src/offchain.rs:78-114 | Every step of every thread, plain writes that disturb nobody midway included, keeps one lock per key, exact reference counts, mutual exclusion, right decisions and a legal log. |
| `LocalStorage.RunsAreLinearizable` | client/db/src/offchain.rs:78-114 | For any number of threads and any interleaving of compare-and-set, reads and such plain writes, the answers are those of executing the logged requests one at a time, in an order that respects real time: a read answers what the latest write before it wrote, or the initial value, a compare-and-set whether that is the expected value, and the store ends with the latest writes. |
| `LocalStorage.AfterIsCurrent` | client/db/src/offchain.rs:60-102 | The store a legal history leaves holds, under every key, the value of the latest event that wrote it, or the initial one. |
| `LocalStorage.AnswersAreCurrent` | client/db/src/offchain.rs:70-102 | Every answer in a legal history is right for the writes before it, by position. |
| `LocalStorage.NoDeadlock` | client/db/src/offchain.rs:86-111 | In every run, whatever plain writes do, an unfinished call can step, or the caller whose lock it waits for can. |
| `LocalStorage.LockMapIsExact` | client/db/src/offchain.rs:86-111 | In every run, whatever plain writes do, callers in flight on a key hold the same lock, the lock map has an entry exactly for keys with a caller in flight, and it is empty at rest. |
| `LocalStorage.WriteLegalIff` | client/db/src/offchain.rs:93-102 | A caller's write leaves a legal history if and only if what it decided from its read is still right for the store. |
| `LocalStorage.PlainSetKeepsIff` | client/db/src/offchain.rs:60-68 | A plain write keeps every pending decision right if and only if, for each caller between reading and writing that key, the new value matches the expected one exactly when the value read did. |
| `LocalStorage.DisturbedWriteIff` | client/db/src/offchain.rs:60-102 | The history that a plain write and then a midway caller's write leave is legal if and only if the plain write kept that caller's decision. |
| `LocalStorage.EitherOrderIff` | client/db/src/offchain.rs:60-102 | Taking the two calls in either order, their answers and the resulting store are explained if and only if the caller was not going to write, or the plain write left the expected value or the very value the caller writes. |
| `LocalStorage.PlainSetCanBreakAtomicity` | client/db/src/offchain.rs:60-68 | A reachable interleaving, step by step from an empty store, in which a caller is told it succeeded and neither order of the two calls explains the answers and the store. |
| `CompletedRounds.Search` | client/finality-grandpa/src/environment.rs:157-160 | The binary search by descending number finds the round or the place that keeps the order. |
| `CompletedRounds.Push` | client/finality-grandpa/src/environment.rs:156-170 | Search, replace or insert, and evict equals the sorted, bounded placement. |
| `CompletedRounds.WindowOfHistory` | client/finality-grandpa/src/environment.rs:124-170 | After any series of pushes the window is non-empty, strictly descending, and holds the latest data of exactly the highest two round numbers seen. |
| `CompletedRounds.WindowStartsAtHighest` | client/finality-grandpa/src/environment.rs:149-153 | The round reported as last is the highest ever seen. |
| `CompletedRounds.Conclude` | client/finality-grandpa/src/environment.rs:856-868 | The search for the concluded round and the extension of its votes equal the first-match update, and the record handed to storage is that round as extended. |
| `CompletedRounds.ConcludedRounds` | client/finality-grandpa/src/environment.rs:856-868 | Concluding changes one round only: it keeps its stored votes and gains those seen after as many, so that a stored prefix of the seen votes becomes exactly the seen ones; the record is the changed round, and there is one exactly when the window has the round. |
| `VoterState.ReactKeeps` | client/finality-grandpa/src/environment.rs:638-881 | Under the round discipline every recorded change keeps the state valid, all recorded votes, and all finished rounds finished. |
| `VoterState.VoteAnswer` | client/finality-grandpa/src/environment.rs:638-767 | When a vote is refused as paused, untracked or a precommit without prevote, and when it is ignored because the node is no voter or has cast one of that kind. |
| `VoterState.RecordsTheVoteCast` | client/finality-grandpa/src/environment.rs:638-767 | A recorded vote is the very one cast, under the voter's name; the earlier votes of the round, all other rounds and the completed rounds are as before. |
| `VoterState.CompletionStartsNext` | client/finality-grandpa/src/environment.rs:769-825 | A completed round is tracked no longer, the next one is, without votes, and no other round changes. |
| `VoterState.ProposalKeepsIff` | client/finality-grandpa/src/environment.rs:638-675 | Recording a proposal keeps all recorded votes if and only if no prevote was cast first. |
| `VoterState.CompletionKeepsIff` | client/finality-grandpa/src/environment.rs:785-822 | Completing a round keeps all recorded votes if and only if the next round is tracked without votes, or untracked and still to come. |
| `VoterState.UndisciplinedVotesAreLost` | client/finality-grandpa/src/environment.rs:638-675 | From the state a first prevote gives on a fresh start, a late proposal erases that prevote and a repeated completion of the round before forgets it. |
| `VoterState.NoEquivocation` | client/finality-grandpa/src/environment.rs:397-406 | Over any disciplined run with any write failures and restarts, a restart would read back exactly the memory, recorded votes never change, and finished rounds are never tracked again. |
| `VoterState.VotesNeverDiffer` | client/finality-grandpa/src/aux_schema.rs:297-325 | From a fresh start, two observations of one round, however far apart, never show different votes of one kind. |
| `VoterState.RestartShowsTheVoteCast` | client/finality-grandpa/src/environment.rs:638-767 | Once a vote was recorded in a disciplined run, any restart later in the run reads back that vote while its round is tracked, and the round is finished otherwise. |
| `VoterState.Environment.Load` | client/finality-grandpa/src/aux_schema.rs:297-325 | A restart reads back the stored state, or builds a live state on the genesis round when nothing is stored, and writes nothing. |
| `VoterState.Environment.Update` | client/finality-grandpa/src/environment.rs:397-406 | Memory changes only after the write succeeded, and then equals the disk. |
| `VoterState.Environment.WithCurrentRound` | client/finality-grandpa/src/environment.rs:250-264 | The votes of a tracked round, or an error when paused or untracked. |
| `VoterState.Environment.NoteProposed` | client/finality-grandpa/src/environment.rs:638-675 | A first proposal is recorded as given, in memory and on disk; a repeated one changes nothing; it succeeds exactly for a non-voter or a tracked round whose write succeeds, and errors change nothing: the step the run theorems are about. |
| `VoterState.Environment.NotePrevoted` | client/finality-grandpa/src/environment.rs:677-716 | The same for prevotes, carrying the proposal along. |
| `VoterState.Environment.NotePrecommitted` | client/finality-grandpa/src/environment.rs:718-767 | The same for precommits: exactly the precommit given is recorded, beside the proposal and the prevote, and it is refused without an earlier prevote. |
| `VoterState.Environment.NoteCompleted` | client/finality-grandpa/src/environment.rs:769-825 | The round moves to the completed window and the next one is tracked, with disk before memory. |
| `VoterState.Environment.NoteConcluded` | client/finality-grandpa/src/environment.rs:827-881 | The record of a concluded round still in the window is stored first and then the state; a failure of either write leaves memory as it was. |
| `VoteTargets.DefaultRulesObey` | client/finality-grandpa/src/voting_rule.rs:78-153 | Both default rules only ever name an ancestor of the current target. |
| `VoteTargets.RestrictToThreeQuarters` | client/finality-grandpa/src/voting_rule.rs:109-153 | The walk back through headers names the ancestor three quarters of the way from base to best to the nearest block, halves up, by the bounds of that rounding, exactly when the current target lies above it. |
| `VoteTargets.RoundedUpIff` | client/finality-grandpa/src/voting_rule.rs:116-126 | That height is three quarters of the way rounded up if and only if the distance is not three more than a multiple of four. |
| `VoteTargets.CompositeObeys` | client/finality-grandpa/src/voting_rule.rs:172-201 | Any list of rules that obey the contract, applied in turn, obeys it too. |
| `VoteTargets.RestrictedInOrder` | client/finality-grandpa/src/voting_rule.rs:172-201 | Each rule is applied to the target the previous ones left, and moves it exactly to a known block it names. |
| `VoteTargets.BestChainContaining` | client/finality-grandpa/src/environment.rs:426-524 | A vote is cast exactly when the voter set is current, a finality target exists and the limit is not below the block; it is the limited target, restricted by the rules when they stay within bounds. |
| `VoteTargets.VoteIsSafe` | client/finality-grandpa/src/environment.rs:456-517 | For any rules obeying the contract, the vote lies on the chain from base to best and at or below the limit. |
| `VoteTargets.DefaultVoteHeight` | client/finality-grandpa/src/environment.rs:491-517 | With the default rules its height is the least of the limit, one below best and three quarters of the way to the nearest block, stated by the bounds of the rounding, or best when nothing is above the base. |
| `Justifications.Ancestry` | client/finality-grandpa/src/justification.rs:204-220 | The route returned is the path from the block's parent down to just above the base through the given headers, and it exists exactly when the block descends from the base through them. |
| `Justifications.Verify` | client/finality-grandpa/src/justification.rs:136-178 | The ancestry checks pass exactly when every precommit target reaches the commit target through the given headers and every header is used by one of them. |
| `Justifications.FromCommit` | client/finality-grandpa/src/justification.rs:60-90 | For any commit at all, building succeeds exactly when every precommit target is the commit target, or a known descendant of it while the claimed number is no higher than the target's own; it collects exactly the headers between, each once, and they pass the checks. |
| `Justifications.BuiltJustifies` | client/finality-grandpa/src/justification.rs:60-90 | The headers so collected pass the checks of verification. |
| `Justifications.DescendsIsAncestry` | client/finality-grandpa/src/justification.rs:204-220 | Reaching a block through any set of headers implies really descending from it. |
| `Justifications.JustifiesIff` | client/finality-grandpa/src/justification.rs:136-220 | Among well-formed blocks the checks pass exactly when every precommit target is the commit target or descends from it and the headers are exactly the blocks from the precommit targets down to just above the commit target. |
| `ForcedChanges.SearchPlace` | client/finality-grandpa/src/authorities.rs:172-180 | The binary search finds a place that keeps the order by effective number and height. |
| `ForcedChanges.InOrderIff` | client/finality-grandpa/src/authorities.rs:157-191 | An accepted change keeps one change per fork if and only if no pending change was signalled by a descendant of its block. |
| `ForcedChanges.OutOfOrderBothDue` | client/finality-grandpa/src/authorities.rs:157-191 | Concrete changes signalled out of order that are both accepted and both due at one block. |
| `ForcedChanges.DueIsUnique` | client/finality-grandpa/src/authorities.rs:244-287 | At most one pending change is due at any best block. |
| `ForcedChanges.DueUnlessUndelayed` | client/finality-grandpa/src/authorities.rs:256-262 | A change effective at the best number on the best block's chain is due exactly when it has a delay. |
| `ForcedChanges.AuthoritySet.AddForcedChange` | client/finality-grandpa/src/authorities.rs:157-191 | Refused exactly when a pending change lies at or below the block on its chain; otherwise added to the others in order, keeping the invariant exactly for in-order signals. |
| `ForcedChanges.AuthoritySet.ApplyForcedChanges` | client/finality-grandpa/src/authorities.rs:244-287 | Finds a change exactly when one is due and returns that change's median with a set that has its authorities, the next set number and no pending changes. |
| `Cht.RangesPartition` | client/src/cht.rs:280-297 | For every positive size, each number from one lies in the range of its own trie and of no other; ranges start at one, are adjacent and have that size. |
| `Cht.BuildSchedule` | client/src/cht.rs:48-63 | A trie is due exactly at the first block two ranges later. |
| `Cht.ForEachGroup` | client/src/cht.rs:191-238 | Groups are emitted for exactly the inputs whose keys never decrease; they are non-empty, uniform, strictly increasing and concatenate to the input. |
| `Cht.ForEachChtGroup` | client/src/cht.rs:191-238 | The same for tries: every group lies inside its trie's range. |
| `Cht.BuildPairs` | client/src/cht.rs:241-272 | Succeeds exactly when every number of the range is present and then lists exactly those pairs in order; a failure names a missing number. |
| `LightStorage.BuiltStep` | client/src/cht.rs:48-63 | Finalizing one more block builds no trie or exactly the next one, whose range starts right above what is pruned. |
| `LightStorage.TrieExistsIff` | client/src/cht.rs:48-63 | The trie of range `c` exists exactly from block (c + 2) * 2048 + 1 on. |
| `LightStorage.SetHeadIndexIff` | client/db/src/light.rs:229-276 | Whatever block becomes head, the index lists exactly its chain without the pruned numbers if and only if that chain shares the pruned numbers with the finalized one, or the block is the genesis block. |
| `LightStorage.ImportIndexIff` | client/db/src/light.rs:229-276 | The same for a new child imported as head, in terms of its parent. |
| `LightStorage.RangeAgreesIff` | client/db/src/light.rs:302-312 | A trie built along a chain equals the finalized chain's trie if and only if it ends no higher than the fork of the two chains. |
| `LightStorage.OwnChainIsBelow` | client/db/src/light.rs:298-312 | Finalizing a block of the best chain is always safe, and the trie due can always be built, changes trie roots aside. |
| `LightStorage.BuildReplacement` | client/db/src/light.rs:298-352 | The trie due is built, and headers pruned, along whatever chain the index lists: it fails exactly when that chain is too short or lacks a needed changes trie root. |
| `LightStorage.State.ImportedExactIff` | client/db/src/light.rs:405-485 | Which imports keep headers, index and both kinds of tries exact: as head, exactly those whose parent's chain shares the pruned numbers; otherwise exactly those of a header not yet pruned. |
| `LightStorage.State.HeadedExactIff` | client/db/src/light.rs:487-500 | Which head changes to a stored block keep the columns exact, finality reverted or not. |
| `LightStorage.State.FinalizedExactIff` | client/db/src/light.rs:279-358 | Finalizing a child of the last finalized block, on the best chain or off it, keeps all columns exact if and only if no trie is due or the trie due ends below the fork of the best chain and the finalized one. |
| `LightStorage.StepGoodIff` | client/db/src/light.rs:405-542 | Every request keeps the invariant if and only if it is refused or meets a condition known before it. |
| `LightStorage.RunKeepsGood` | client/db/src/light.rs:405-542 | So every run whose accepted requests meet it, from the genesis header and with any refused requests between, keeps the columns exact. |
| `LightStorage.NothingLost` | client/db/src/light.rs:326-352 | After any such run every finalized block is stored, and found by number exactly where the best chain agrees, or it is absent and the trie of its range commits to it. |
| `LightStorage.UnsafeFinalityLoses` | client/db/src/light.rs:302-349 | After every finalization whose trie reaches above the fork, the last block of the range is neither found by number nor committed to by any trie, though its header is still stored under its hash. |
| `LightStorage.FinalizingForkLoses` | client/db/src/light.rs:518-542 | A run from the genesis header whose last request, finalizing a fork beside the best chain, is carried out and leaves a finalized block found by no number and in no trie. |
| `LightStorage.StoredRouteIff` | client/db/src/light.rs:239-262 | Through stored headers alone a route exists exactly when the chains meet above the pruned numbers, so without cached metadata of pruned headers every head change is safe. |
| `LightStorage.RequestEffect` | client/db/src/light.rs:405-540 | A carried out import adds its header, becomes best unless normal and final if final; a head change moves only best, a finalization only finality. |
| `LightStorage.AlwaysAccepted` | client/db/src/light.rs:405-540 | Any import beside the head, a child of the stored best block as head, a stored head that meets the best chain above the pruned numbers, and the next block of the best chain as final without a changes trie root are always carried out. |
| `LightStorage.CachedRouteBreaksIndex` | client/db/src/light.rs:191-202 | A run from the genesis header in which the imports themselves fill the metadata cache, and whose last head change, routed through cached metadata of headers pruned since, leaves the index inexact. |
| `LightStorage.TriesAreForever` | client/db/src/light.rs:304-312 | A trie once built is never changed by later finality. |
| `LightStorage.LightStorage.NoteFinalized` | client/db/src/light.rs:279-358 | Accepted exactly for a child of the last finalized block when the best chain covers the trie due with the roots it needs; what it prepares is that trie and the headers it replaces. |
| `LightStorage.LightStorage.ImportHeader` | client/db/src/light.rs:405-485 | Carried out under an exact condition, with cached metadata taken into account, and with the whole new state; consistency is kept under an exact condition; an error changes nothing stored. |
| `LightStorage.LightStorage.SetHead` | client/db/src/light.rs:487-500 | Carried out exactly when the block is stored and every header of the route is stored or cached; the columns stay exact if and only if the new chain shares the pruned numbers or the head is the genesis block, whether finality is reverted or not. |
| `LightStorage.LightStorage.FinalizeHeader` | client/db/src/light.rs:518-542 | Carried out exactly for a stored child of the last finalized block when the trie due can be built; the columns stay exact if and only if that trie ends below the fork. |
| `LightStorage.LightStorage.HeaderChtRoot` | client/db/src/light.rs:361-374 | For any trie size a root is returned exactly when a stored trie starts where the block's range would, and it is that trie's; for the size used in building, exactly for pruned numbers, and it commits to that number's finalized block. |
| `LightStorage.LightStorage.ChangesTrieChtRoot` | client/db/src/light.rs:361-374 | The same for changes trie roots, which exist for the ranges whose trigger block carried one. |
| `Notifications.SelectPushed` | client/api/src/notifications.rs:128-143 | Filtering the collected top-level changes gives what filtering all of them gives, and a subscriber is collected exactly when that is not empty. |
| `Notifications.SelectPushedChildren` | client/api/src/notifications.rs:144-166 | The same for changes of child tries, with empty child entries dropped. |
| `Notifications.CollectExact` | client/api/src/notifications.rs:116-172 | The collected subscribers are exactly those who asked for a change, and the subscribers to everything as soon as anybody did. |
| `Notifications.IterReadsExactly` | client/api/src/notifications.rs:38-66 | Iterating a change set yields, from a strictly increasing list of places, exactly the changes its filters ask for, each with its child trie, key and value, top-level changes first and nothing from a trie without a filter. |
| `Notifications.LastFilterIsTheLastEntry` | client/api/src/notifications.rs:282-297 | The filter stored for a child trie is that of its last entry. |
| `Notifications.RegisterRoundTrip` | client/api/src/notifications.rs:190-217 | Removing a subscriber from a registry undoes adding it, down to empty entries. |
| `Notifications.ListenFrom` | client/api/src/notifications.rs:247-267 | Adding key by key registers exactly the filter's keys, repeated or not. |
| `Notifications.RemoveSubscriberFrom` | client/api/src/notifications.rs:190-217 | Removing key by key, in any order, unregisters exactly the filter's keys and drops emptied entries. |
| `Notifications.CoveredIff` | client/api/src/notifications.rs:282-297 | The index and the stored child filters of one subscription agree if and only if no entry asks for more than the last entry of its child trie. |
| `Notifications.Hub.ListenedIff` | client/api/src/notifications.rs:270-304 | A new subscription keeps the index exact if and only if its child entries are covered in that sense. |
| `Notifications.Hub.RemovedKeeps` | client/api/src/notifications.rs:219-245 | Removing a subscription keeps the index exact. |
| `Notifications.Hub.ListenThenRemoveIff` | client/api/src/notifications.rs:219-304 | Closing a subscription removes every trace of it from the child index if and only if its entries were covered. |
| `Notifications.RepeatedChildKeyGoesStale` | client/api/src/notifications.rs:282-297 | With two entries for one child trie, the first entry's key keeps leading to an identifier without a sink after closing. |
| `Notifications.StorageNotifications.Listen` | client/api/src/notifications.rs:270-304 | The identifier is fresh, its sink is open and empty with exactly the keys asked for, other sinks are untouched, the new state is the specified one, and the invariant is kept exactly for covered child entries. |
| `Notifications.StorageNotifications.RemoveSubscriber` | client/api/src/notifications.rs:219-245 | Exactly this subscription disappears from sinks and index. |
| `Notifications.StorageNotifications.Trigger` | client/api/src/notifications.rs:108-188 | Each notified live subscriber gets one message last in its queue, off which it reads exactly the block's changes it asked for, by place, with trie, key and value in order; the un-notified are untouched and had asked for nothing; notified dead ones are removed; the sink lookup never fails. |

## Left out

- ChainDb.Backend.CommitPending: a block imported a second time, which the client can ask for, is not modelled; `LeafSets.LeafSet.Import` says what that does to the leaf set.
- ChainDb.Backend.TryCommitOperation: the same, for the operation as a whole.
- CachingStates.CachingState.CommitChanges: a block already listed, which only a second import of it can commit, is not modelled.
- CachingStates.CachingState.SyncCache: the same, for the commit as a whole.
- Standard authority changes, `validate_commit` and signature checks: they rest on external code.
- `Backend::revert`, `LeafSet::revert` and `undo_import`: they do not keep the number entries, the shared cache or the leaf heights consistent.
- `Backend::finalize_block` called directly, and the in-memory test backend: finalization is modelled through the client.
- Database write failures, except for voter state, where a failed write is a step of the model.
- State pruning and pinning, the stored marker of the finalized block, the children column, auxiliary data and byte-level keys.
- Imports without state, consistency of header numbers (checked by the runtime), and notifications sent by the client.
- Canonical hash trie proofs: a trie root is identified with the pairs it commits to.
- The light client's block-keyed cache of well-known values.
- The decoding of voter state and the migrations from older schema versions.
- Reordering of plain writes that overlap each other: the conditions on plain writes place each of them where it took effect.
- Overflow of identifiers and sizes, and the capacity of hash maps and queues.
- Vote target lookups that fail in the client: a header missing below a known one cannot occur in the modelled tree.

The statements above are proved about the model. Nothing was executed.
