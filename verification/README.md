# Confura, modelled in Dafny

Confura serves JSON-RPC for Conflux and Ethereum style chains. It mirrors chain data into a database, answers log
queries from it, keeps virtual filters for many clients over one filter of a full node, and suggests gas fees. The
chain can be reorganized at any moment, and most of the difficulty of the program is in following that.

This project models six parts of it and proves what they are for.

1. **Virtual filter chains** (`ForkTree`, `Links`, `FilterChain`, `ChainGrowth`, `EthFilterChain`, `EthFilterChanges`,
   `FilterWorker`, `EthReplay`, `CfxFilterChain`, `CfxCollapse`). Blocks are kept on a ring of linked nodes from which
   reorganized nodes hang off. Clients hold cursors into it. The tree of paths (`Tree`) is the specification; the linked
   ring (`Memory`, class `FilterChain`) implements it. Main results: over any run of merges, a client that applies its poll
   to the chain it held ends up with the canonical chain if and only if no batch put a never seen block in front of that
   chain (`EthReplay.ClientsFollowCanonIff`); and for core space one revert marker leads to the canonical chain if and only
   if the fork point is not above it (`CfxCollapse.RunCollapseIff`), which always holds when no cut epoch is appended again
   (`CfxCollapse.OneMarkerSuffices`).
2. **Catch-up** (`TaskSets`, `Scheduler`, `Coordinator`, `Persister`, `RoundRobin`, `LogDistribution`). A coordinator hands
   ranges of epochs to workers, splits failed ranges, and emits epochs in order. Goroutines are steps of a state machine;
   any interleaving is a run. Main results: no epoch is lost or duplicated, the output is in order, an idle dispatcher with
   epochs left always has work outstanding, fewer than twice as many tasks as there are epochs are executed, and every
   epoch comes out as a worker delivered it (`Scheduler.EveryRun`); behind any run, boost or round-robin, the batches written are consecutive and on completion
   concatenate to the range (`Persister.PersistRun`, `RoundRobin.PersistRun`).
3. **Database sync** (`EpochStore`, `PivotWindow`, `Syncer`, `SyncConvergence`, `SyncCheck`). Rounds of the syncer against a
   node that may answer anything. Main results: the store is always hash-linked (`Syncer.RunKeepsLinked`), from any linked
   store it converges to a fixed chain within an explicit number of rounds unless the store holds a foreign genesis epoch
   (`SyncConvergence.ConvergesIff`), and startup repair finds the least reverted epoch and removes exactly what follows it,
   or fails for a reason that is named (`SyncCheck.EnsureStoreEpochDataOk`).
4. **Partitioned event logs** (`LogPartitions`, `LogSearch`, `LogQuery`, `LogIndex`, `LogStore`, `VirtualFilterLogs`).
   Tables partitioned by block number. Main results: after any run of adds, pops and prunes a query through the partitions
   equals the same query over one plain list exactly when no table is cut short (`LogIndex.EveryQuery`); a range suggested
   after reading fits the limit and is the longest that does (`LogStore.LogStore.GetLogs`), while one suggested by the check
   of a single table fits if and only if the rows of the earlier tables leave room for it
   (`LogQuery.TableSuggestionFitsIff`); and soft deletion leaves exactly the rows of the last batch per block
   (`VirtualFilterLogs.LiveIsLastNamed`).
5. **Traces** (`TraceForest`, `TraceBuilder`, `BlockTraces`). A stack machine that turns a pre-order list with child counts
   into a list bracketed by results. Main results: it flattens every call forest, succeeds exactly on the complete ones, and
   its output determines its input (`TraceForest.CompleteIff`, `TraceForest.OutputDeterminesInput`).
6. **Gas fees** (`PriorityFees`, `FeeWindow`, `EthGasStation`, `DeepReorg`). A window of the latest blocks that follows
   reorganizations. Main results: no block that was taken back stays in the window (`EthGasStation.EveryRun`); a round leaves
   the window's blocks on one chain if and only if it does not accept a stranger on a hash list that is used up
   (`EthGasStation.RoundConnectedIff`); and suggested fees are ordered by percentile and within the range of the tips.

`Basics` holds what several of them share. `dafny verify dfyconfig.toml` checks everything.

## Code and documentation

Where the code and its comments differ, the model follows the code.

- `store/mysql/store_common_partition_bn.go:167-209` reports pruned data only if the searched range ends before the first
  covered block or reaches past it from before. A range that starts earlier and ends exactly there, or any range when
  nothing is covered, is answered without an error. `LogIndex.FoundIsCompleteIff` says that a search which is not refused is
  complete if and only if no pruned row is in its range; it is when the range starts at or after the first covered block
  (`LogIndex.QueryServesLog`). `LogIndex.FirstBlockSearchMisses` and `LogIndex.UncoveredSearchMisses` give the two runs that
  miss rows, and `LogIndex.MissesOnlyAtFirstBlock` says that with something covered there is no other case.
- The same search reports the part of a range that is not covered only if the range starts before the last covered block
  (`store/mysql/store_common_partition_bn.go:201-206`). For one that starts exactly there and goes on it reports none:
  `LogSearch.UncoveredIsRestIff`.
- The range that the check of one table suggests (`store/mysql/store_log_filter.go:86-218`) ignores rows of tables already
  read and may exceed the limit: `LogQuery.TableSuggestionFitsIff` and, for an input, `LogQuery.TableSuggestionTooLarge`.
- Removed logs may name blocks that were never seen (`virtualfilter/eth_chain.go:68-70`). They are put in front of the chain,
  and a client is then told to drop a block it never had: `EthReplay.UnseenFrontBreaksReplay` gives the family of inputs.
- A pop of logs is rolled back when rows would leave a partition that is not the latest
  (`store/mysql/store_common_partition_bn.go:246-251`); `LogStore.LogStore.Popn` states exactly when.
- A poll with a cursor whose block is canonical but has another number reports that block again
  (`virtualfilter/worker.go:341-392`); `FilterWorker.PollReplaysIff` gives the exact condition under which replay is right.
- A poll with the nil cursor starts at the first node ever inserted, which need not be the front of the chain;
  `FilterWorker.NilPollIsCanonIff` states when it reports the canonical chain.
- One revert marker is not enough when a detached epoch is appended again; `CfxCollapse.RunCollapseIff` gives the exact
  condition and `CfxCollapse.ReappendedEpochIsLost` a family of inputs that violate it.
- A revert target of 0 stands for "not reverted" (`virtualfilter/cfx_chain.go:193`), so reverting to epoch 0 does not mark
  the epochs cut off: `CfxFilterChain.RevertAboveGoodIff`. A list that starts with this target is even taken for new epochs,
  and its marker is appended to the chain: `CfxFilterChain.AppendMarker`.
- The genesis epoch is never dropped (`sync/sync_db.go:373-417`), so a store with a foreign one does not converge:
  `SyncConvergence.StuckAfterPops`.
- The gas station keeps 100 block hashes. When a reorganization is deeper, or reaches a stretch that the window spans thanks
  to blocks without gas limit, the list runs out, the next block is accepted without comparison, and blocks that are no longer
  on the chain stay in the window: `EthGasStation.RoundConnectedIff`, and `DeepReorg.StaleBlockStays` for runs that show it.
- Absent traces are skipped without counting as a sub-call (`rpc/cfxbridge/trace_builder.go:45-47`);
  `TraceForest.SkipsAbsent` says what that means for building.

## Model

| member | source | states |
|---|---|---|
| ForkTree.PushBackStable | virtualfilter/chain.go:155-175 | appending a block to the canonical chain keeps the tree stable: every prefix of a path is the path of its last block, and a known block is reorged exactly if it is off the canonical chain |
| ForkTree.PushFrontWellFormed | virtualfilter/chain.go:150-175 | prepending a block in front of the chain keeps every recorded path consistent |
| ForkTree.RewindStable | virtualfilter/chain.go:178-200 | cutting the canonical chain after a kept prefix keeps the tree stable if exactly the cut blocks were marked reorged |
| ForkTree.ForkPoint | virtualfilter/chain.go:94-102 | up to the fork point a path and the canonical chain agree, and right behind it they differ |
| ForkTree.CommonIsMaximal | virtualfilter/chain.go:94-102 | no longer prefix than the fork point is common to the path and the canonical chain |
| ForkTree.ReorgedPastFork | virtualfilter/chain.go:94-102 | on a recorded path the blocks up to the fork point are canonical and all later ones are reorged, so walking back over reorged nodes stops at the fork point |
| ForkTree.ReplayReachesCanon | virtualfilter/worker.go:341-392 | popping and pushing the changes of a path onto that path gives exactly the canonical chain |
| ForkTree.ReplayOnViewIff | virtualfilter/worker.go:341-392 | applied to only the end of that path, the changes give the canonical chain if and only if that end is the whole path |
| Links.PushBackShape | virtualfilter/chain.go:160-175 | inserting a node before the root makes the ring and all back links represent the extended tree |
| Links.PushFrontShape | virtualfilter/chain.go:160-175 | inserting a node after the root makes the ring and all back links represent the tree with a new front, reorged nodes included |
| Links.RewindShape | virtualfilter/chain.go:178-200 | closing the ring behind a node represents the tree with the canonical chain cut there, detached nodes keeping their back links |
| Links.SetBodyShape | virtualfilter/eth_chain.go:62-82 | replacing the body of a node changes nothing else |
| FilterChain.FilterChain.SnapshotLatestCursor | virtualfilter/chain.go:59-65 | the cursor of the last canonical block, nil if there is none |
| FilterChain.FilterChain.PushBack | virtualfilter/chain.go:155-175 | the linked structure stays valid and represents the tree with the block appended; the length counts it |
| FilterChain.FilterChain.PushFront | virtualfilter/chain.go:150-175 | the linked structure stays valid and represents the tree with the block in front |
| FilterChain.FilterChain.Rewind | virtualfilter/chain.go:178-200 | fails exactly for a node that is not on the ring; otherwise everything behind it leaves the canonical chain and the length shrinks by their number |
| FilterChain.FilterChain.WalkBack | virtualfilter/chain.go:94-102 | visits reorged blocks of a path, tip first, up to the first that is not reorged |
| FilterChain.FilterChain.WalkToFork | virtualfilter/chain.go:94-118 | the walk back visits exactly the blocks past the fork point and stops there, where the canonical chain goes on |
| FilterChain.FilterChain.WalkForward | virtualfilter/chain.go:121-126 | visits exactly the canonical blocks from a node to the tail, in order |
| FilterChain.FilterChain.Traverse | virtualfilter/chain.go:78-129 | terminates; an unknown cursor is refused, and only then; otherwise the visits are those of the cursor's recorded path, from the genesis node for the nil cursor |
| ChainGrowth.ExtendAppends | virtualfilter/eth_chain.go:85-120 | a successful extension appends exactly the given blocks to the canonical chain, in order |
| ChainGrowth.ExtendStores | virtualfilter/eth_chain.go:85-120 | the tree then stores exactly these blocks with all they carry, and the other blocks as before |
| ChainGrowth.ExtendOneIff | virtualfilter/eth_chain.go:89-109 | a block can be appended if and only if it is not canonical and, if it was seen before, its place was behind the canonical tail |
| ChainGrowth.ExtendSucceedsIff | virtualfilter/eth_chain.go:85-120 | an extension succeeds if and only if every block fits at its turn, behind those before it |
| ChainGrowth.ExtendKeeps | virtualfilter/eth_chain.go:85-120 | a successful extension keeps the tree stable, and recorded paths change at most at their root |
| ChainGrowth.ExtendChain | virtualfilter/eth_chain.go:85-120 | succeeds exactly when the specification does, and then represents the extended tree |
| EthFilterChain.RevertRemoves | virtualfilter/eth_chain.go:62-82 | a successful reorg takes exactly the given blocks off the canonical chain, tip first, and blocks beyond its front were never seen |
| EthFilterChain.RevertStores | virtualfilter/eth_chain.go:62-82 | the tree then stores exactly these blocks as reverted with all they carry, and the other blocks as before |
| EthFilterChain.RevertSucceedsIff | virtualfilter/eth_chain.go:62-82 | a reorg succeeds if and only if each block is the canonical one in place at its turn or, beyond the front, was never seen |
| EthFilterChain.RevertKeeps | virtualfilter/eth_chain.go:62-82 | a successful reorg leaves a stable tree: exactly the blocks off the chain are reorged, and recorded paths change at most at their root |
| EthFilterChain.MergeKeeps | virtualfilter/eth_chain.go:38-59 | a successful merge of any lists keeps the tree stable and every recorded path known |
| EthFilterChain.MergeListEffect | virtualfilter/eth_chain.go:45-56 | a list of removed blocks shortens the canonical chain by them, any other appends its blocks; either way they are stored as given |
| EthFilterChain.MergeListsConcat | virtualfilter/eth_chain.go:45-56 | lists are merged one after the other, in order, and the first failure ends the merge |
| EthFilterChain.MergePathKeptIff | virtualfilter/eth_chain.go:62-82 | over a merge the recorded path of a block stays as it is if and only if no list puts unseen blocks in front of its root |
| EthFilterChain.Reorg | virtualfilter/eth_chain.go:62-82 | succeeds exactly when each reverted block is the tail at its turn, or never seen once the chain is used up, and then represents the reverted tree |
| EthFilterChanges.RunsAreMaximal | virtualfilter/eth_chain.go:224-271 | the runs concatenate to the logs, have one removed flag each, and neighbours differ |
| EthFilterChanges.BlocksPartition | virtualfilter/eth_chain.go:224-271 | every log of a run is in exactly one block, that of its hash, each block holds exactly the logs of its hash, each once and in their order, and no two blocks share a hash |
| EthFilterChanges.BlocksInOrder | virtualfilter/eth_chain.go:251-267 | blocks come in order of first appearance: some log of an earlier block is before every log of a later one |
| EthFilterChanges.BlockPicks | virtualfilter/eth_chain.go:254-267 | the logs of a block are those at increasing positions of the run, and its number and flag are those of the first of them |
| EthFilterChanges.ListsAreParsed | virtualfilter/eth_chain.go:224-271 | parsed lists are non-empty and uniform, as merging needs them |
| EthFilterChanges.GroupBlocks | virtualfilter/eth_chain.go:248-268 | one pass with a map of logs by hash gives the blocks of a run in order of first appearance |
| EthFilterChanges.SplitRuns | virtualfilter/eth_chain.go:229-243 | the loop cuts the logs into the maximal runs |
| EthFilterChanges.ParseChanges | virtualfilter/eth_chain.go:224-271 | the lists of blocks of the maximal runs, for any logs |
| EthFilterChanges.Merge | virtualfilter/eth_chain.go:38-59 | merging polled logs succeeds exactly when the specification does, and then the chain is valid and stable |
| FilterWorker.PollReportsChanges | virtualfilter/worker.go:341-392 | a poll reports the reorged blocks of the cursor's path, tip first, then the canonical blocks behind the fork point, and nothing else except a repeated block at the cursor |
| FilterWorker.PollReplaysIff | virtualfilter/worker.go:341-392 | applying a poll to the cursor's path gives the canonical chain if and only if the block at the cursor is reorged or still has the cursor's height |
| FilterWorker.NilPollIsCanonIff | virtualfilter/worker.go:341-392 | a poll with the nil cursor reports the canonical chain if and only if the first node ever inserted is its front |
| FilterWorker.CollectReported | virtualfilter/worker.go:353-379 | the callback keeps exactly the visits that are reported, in order |
| FilterWorker.Session.Accept | virtualfilter/worker.go:101-128 | a new client gets the cursor of the canonical tail; stored cursors stay nil or indexed |
| FilterWorker.Session.Reject | virtualfilter/worker.go:131-141 | a client is removed if it was there |
| FilterWorker.Session.FetchPollingChanges | virtualfilter/worker.go:341-392 | a stored cursor is never refused; the client gets what changed since its cursor, for the nil cursor since the genesis block, or the genesis marker and the canonical chain, and moves to the canonical tail |
| EthReplay.RunKeeps | virtualfilter/eth_chain.go:38-59 | after any run of successful merges the tree is stable and every path known before is still a path |
| EthReplay.ReplayAfterRun | virtualfilter/worker.go:341-392 | after any run, polling with a cursor handed out before it and applying the result gives the new canonical chain exactly under the height condition |
| EthReplay.RecordedPathFollowsCanon | virtualfilter/worker.go:341-392 | if a hash determines a number, applying a poll after any run of merges to the recorded path of the client's block gives the new canonical chain |
| EthReplay.RunPathKeptIff | virtualfilter/eth_chain.go:38-82 | over any run of merges the recorded path of a block stays as it is if and only if no batch puts unseen blocks in front of its root |
| EthReplay.ClientsFollowCanonIff | virtualfilter/worker.go:341-392 | if a hash determines a number, a client that held the canonical chain and applies its poll to it after any run of merges holds the new canonical chain if and only if no batch put an unseen block in front of what it held |
| EthReplay.UnseenFrontBreaksReplay | virtualfilter/eth_chain.go:62-82 | for any two hashes, a client that held one block is told to drop that block and a block it never had |
| EthReplay.MergePolled | virtualfilter/worker.go:235-247 | merging under a session keeps every stored cursor valid |
| CfxFilterChain.Kept | virtualfilter/cfx_chain.go:57-83 | the epochs kept by a revert end at the last one not above the target, and all behind it are above |
| CfxFilterChain.RevertAboveGood | virtualfilter/cfx_chain.go:57-83 | reverting to an epoch other than 0 leaves a stable tree with the same paths |
| CfxFilterChain.RevertAboveGoodIff | virtualfilter/cfx_chain.go:57-83 | reverting to any epoch leaves a stable tree if and only if the target is not 0 or nothing is cut off |
| CfxFilterChain.RevertAboveAlive | virtualfilter/cfx_chain.go:57-83 | whatever the target, no canonical epoch is marked as reverted |
| CfxFilterChain.ApplyGood | virtualfilter/cfx_chain.go:33-54 | every successful change with a target other than 0 leaves a stable tree that keeps all known paths |
| CfxFilterChain.RunGood | virtualfilter/cfx_chain.go:33-54 | so does every successful run of such changes |
| CfxFilterChain.RunConcat | virtualfilter/cfx_chain.go:33-54 | changes take effect one after the other, in order |
| CfxFilterChain.DropMarker | virtualfilter/cfx_chain.go:61-79 | on an empty chain a marker node is inserted and rewound away, changing no path |
| CfxFilterChain.AppendMarker | virtualfilter/cfx_chain.go:41-49 | the marker of a list that starts with target 0 is appended without being indexed, after which no fork tree describes the links |
| CfxFilterChain.MarkAbove | virtualfilter/cfx_chain.go:61-74 | the walk from the tail sets the revert target on exactly the epochs above it and returns the node before them |
| CfxFilterChain.ReorgTo | virtualfilter/cfx_chain.go:57-83 | never fails and represents the reverted tree, for every target that reaches it |
| CfxFilterChain.MergeChanges | virtualfilter/cfx_chain.go:33-121 | merging reverts and epochs succeeds exactly when the specification does and represents its result |
| CfxCollapse.CollapseEpochs | virtualfilter/cfx_filter.go:163-194 | the loop yields the marker of the leading reorged epochs and the epochs behind them |
| CfxCollapse.CollapseSufficesIff | virtualfilter/cfx_filter.go:163-194 | dropping everything above the one marker and appending the rest gives the canonical chain if and only if the fork point is not above that marker |
| CfxCollapse.RunInv | virtualfilter/cfx_chain.go:33-121 | after any run of reverts and new epochs, epochs ascend along paths and a cut epoch was reverted to its predecessor or later, if that is still canonical |
| CfxCollapse.RunCollapseIff | virtualfilter/worker.go:479-530 | after any run of nested reorgs and of new or reappended epochs, one marker and the following epochs take a client from the old canonical chain to the new one if and only if the fork point is not above the marker |
| CfxCollapse.OneMarkerSuffices | virtualfilter/worker.go:479-530 | if no cut epoch is appended again, they always do |
| CfxCollapse.ReappendedEpochIsLost | virtualfilter/cfx_filter.go:163-194 | whenever two epochs are reverted and the first is appended again, the collapsed changes do not lead to the canonical chain |
| Scheduler.NextKeeps | sync/catchup/boost.go:181-288 | every step of any goroutine keeps the invariant: epochs conserved, tasks proper, output in order, liveness, bounded work |
| Scheduler.EveryRun | sync/catchup/boost.go:181-378 | in every interleaving each assigned epoch is in exactly one place, emitted epochs are consecutive from the start and each is exactly as some successful task delivered it, an idle dispatcher with epochs left has work outstanding, and unless a task of one epoch failed, fewer than two tasks per epoch are executed |
| Scheduler.RunGenuine | sync/catchup/boost.go:316-345 | over any run, what is cached, emitted or held in results was delivered by a successful task of that run, unchanged |
| Scheduler.RunAccount | sync/catchup/boost.go:181-288 | the account counts exactly the executions of a run and notes exactly whether one of a single epoch failed |
| Scheduler.NeverStalls | sync/catchup/boost.go:221-288 | while the dispatcher is idle and epochs are not emitted, some task is pending, running or has a result |
| Scheduler.FewExecutions | sync/catchup/boost.go:348-378 | recall splitting costs fewer than twice as many executions as there are epochs |
| Scheduler.SplitKeeps | sync/catchup/boost.go:351-364 | splitting a recalled task into halves conserves epochs and the work bound |
| Scheduler.SplitHalves | sync/catchup/boost.go:351-364 | a recalled task of one epoch is queued again as it is, a longer one as two neighbouring parts that cover it and differ in size by at most one |
| Scheduler.CutNextSize | sync/catchup/boost.go:366-375 | a new task starts where assignment stopped and has the wanted size, or all that is left |
| Scheduler.AssignOrder | sync/catchup/boost.go:349-376 | recalled tasks go first, the earliest of them first; new ones are cut only when none is recalled, and queueing stops at a task per worker |
| Scheduler.TakesInOrder | sync/catchup/boost.go:181-219 | workers take tasks in the order in which they were queued |
| Scheduler.ReceivesInOrder | sync/catchup/boost.go:221-288 | the dispatch loop takes results in the order in which they came |
| Scheduler.FlushAllKeeps | sync/catchup/boost.go:316-345 | emitting all consecutive cached epochs keeps the invariant and leaves the next one uncached |
| Coordinator.Coordinator.CollectEpochData | sync/catchup/boost.go:316-345 | caches the epochs and emits the longest consecutive stretch |
| Coordinator.Coordinator.HandleResult | sync/catchup/boost.go:253-267 | a result is stored or recalled as the scheduler's step says, and the invariant holds |
| Coordinator.Coordinator.AssignTasks | sync/catchup/boost.go:348-378 | fills the queue up to one task per worker, recalled halves first, as the scheduler's step says |
| Coordinator.EstimateTaskSize | sync/catchup/boost.go:291-313 | the size is the mean of the suggested sizes, each result weighing half as much as the next one, rounded up and clamped; it is at least one, the default without results, and between the clamped extremes of the suggestions |
| Coordinator.EstimateSides | sync/catchup/boost.go:299-305 | a success suggests a larger task than its own, a failure a smaller one, if the ratios are positive |
| Coordinator.SumDecayed | sync/catchup/boost.go:296-308 | the loop sums suggestions and weights that halve with every result further back, the last one weighing one |
| Coordinator.ClampWithin | sync/catchup/boost.go:311-311 | a size within the configured bounds stays, any other becomes the nearest bound |
| Persister.FetchAndPersist | sync/catchup/boost.go:512-566 | the batches are in order, non-empty, none was due before its last epoch, and they concatenate to a prefix of what was delivered; every expiry of the timer forces a write of what is held; every outcome but completion has its cause: too few arrivals, an epoch out of order, or a failing write; what is unwritten on cancellation is not due; on completion the batches are the full range |
| Persister.Persist | sync/catchup/syncer.go:305-325 | writes what is held, if anything, and fails exactly if the database refuses |
| Persister.PersistRun | sync/catchup/boost.go:512-566 | behind any run of the scheduler the number check never fires, what is written is a prefix of the range with each epoch as a worker delivered it, and once the range is emitted and no write fails it completes with exactly the range |
| Persister.FetchResult | sync/catchup/syncer.go:229-277 | every batch but the last is full, none was due before its last epoch, and they concatenate to what was received; it completes with the range unless cancelled early or a write fails |
| RoundRobin.NextKeeps | sync/catchup/worker.go:32-62 | every send, retry and collection keeps the order invariant of all channels |
| RoundRobin.EveryRun | sync/catchup/syncer.go:192-277 | for every interleaving the k-th epoch collected is the k-th of the range, as its worker sent it, and the next one is first in, or next for, the channel that is waited on |
| RoundRobin.PersistRun | sync/catchup/syncer.go:229-277 | for every interleaving the batches written are consecutive epochs from the start, each as its worker sent it, and once all are collected and no write fails they are exactly the range |
| LogDistribution.ReceiptsHoldLogs | sync/catchup/boost.go:594-688 | each transaction with logs has one receipt, which holds its logs in order under its epoch |
| LogDistribution.OfTxPicks | sync/catchup/boost.go:633-670 | the logs of a receipt are those of its transaction, each once and in order |
| LogDistribution.OfEpochSelects | sync/catchup/boost.go:633-670 | the logs of an epoch are exactly those with its number |
| LogDistribution.OfEpochPicks | sync/catchup/boost.go:633-670 | the logs of an epoch, each once and in order |
| LogDistribution.ChosenPicks | sync/catchup/boost.go:595-681 | the blocks of an epoch that are kept, each once and in the order of the epoch |
| LogDistribution.CollectLogs | sync/catchup/boost.go:633-670 | takes exactly the stretch of logs of the epoch and stops at the next one, or fails at a log whose block is not found |
| LogDistribution.QueryEpoch | sync/catchup/boost.go:595-681 | one epoch's data: its receipts, and its first, last and log-bearing blocks in order; it fails only if the node does not answer for the epoch, or does not find one of these blocks |
| LogDistribution.QueryEpochData | sync/catchup/boost.go:574-689 | it succeeds if and only if the logs are sorted by epoch, within the range, and the node answers for every epoch and finds the blocks its data needs; then each epoch's receipts hold exactly its logs |
| EpochStore.PivotHashFinds | store/mysql/store_map_epoch_block.go:153-162 | the lookup finds exactly the stored epochs |
| EpochStore.BeforeContiguous | store/mysql/store_map_epoch_block.go:186-188 | removing epochs from a contiguous store leaves a prefix of known length |
| EpochStore.RequireContinuous | store/epoch_data.go:26-49 | succeeds exactly for a slice that continues the stored epochs one by one |
| EpochStore.Store.PushnWithFinalizer | store/mysql/store.go:86-193 | writes all or nothing, and exactly when the slice continues the store and the transaction commits |
| EpochStore.Store.PopnWithFinalizer | store/mysql/store.go:201-265 | removes exactly the epochs from the given one on, or nothing if rolled back |
| PivotWindow.Window.Push | sync/epoch_pivot.go:52-92 | accepts exactly the next epoch whose parent is the cached tip, or anything when empty, and evicts the oldest over capacity |
| PivotWindow.Window.Popn | sync/epoch_pivot.go:94-111 | removes exactly the cached epochs from the given one on |
| Syncer.FetchIsGood | sync/sync_db.go:234-296 | whatever the node answers, the fetched slice is consecutive, hash-linked, and linked to the stored tip |
| Syncer.FetchExplained | sync/sync_db.go:234-296 | whatever the node answers, a batch copies its answers, each the parent of the next, and is short only because of a reported pivot switch or because the next answer contradicts the one left out |
| Syncer.BatchUncontradicted | sync/sync_db.go:234-296 | no epoch of a batch is contradicted by the next answer asked for |
| Syncer.SyncSizeIs | sync/sync_db.go:362-371 | the range is the batch size or what is left up to the confirmed epoch, and empty when its end overflows 64 bits |
| Syncer.StepKeepsLinked | sync/sync_db.go:201-342 | one round with arbitrary answers keeps the store contiguous and hash-linked |
| Syncer.RunKeepsLinked | sync/sync_db.go:201-342 | so does every run of rounds with changing answers and failing commits |
| Syncer.FetchEpochs | sync/sync_db.go:234-296 | the loop computes the specified slice, pivot switch or error, and each outcome has its reason: an error or a switch was reported, or the batch is complete or ends before an answer that the next one contradicts |
| Syncer.DatabaseSyncer.GetStoreLatestPivotHash | sync/sync_db.go:419-433 | the hash of the stored tip, from the window or from the store |
| Syncer.DatabaseSyncer.PivotSwitchRevert | sync/sync_db.go:373-417 | removes exactly the stored tip if that commits, window included |
| Syncer.DatabaseSyncer.CachePivots | sync/sync_db.go:324-334 | after pushing a slice the window is a suffix of the store |
| Syncer.DatabaseSyncer.OnLeadershipChanged | sync/sync_db.go:443-449 | empties the window |
| Syncer.DatabaseSyncer.SyncOnce | sync/sync_db.go:201-342 | one round turns the stored rows into those of the specification, keeps the window a suffix of them, and is complete exactly if the next epoch is past the confirmed one |
| SyncConvergence.RoundAppends | sync/sync_db.go:201-342 | if the stored tip is on the chain, a round appends the next batch of it |
| SyncConvergence.RoundPops | sync/sync_db.go:373-417 | if the stored tip is off the chain, a round drops exactly it |
| SyncConvergence.PopPhase | sync/sync_db.go:373-417 | the first rounds drop the epochs off the chain, exactly one each |
| SyncConvergence.PushRoundsBound | sync/sync_db.go:362-371 | the number of appending rounds is the number of missing epochs divided by the batch size, rounded up |
| SyncConvergence.Converges | sync/sync_db.go:201-342 | after as many rounds as there are epochs to drop and batches to append, and ever after, the store is its agreeing epochs continued by the chain up to the confirmed epoch |
| SyncConvergence.AgreementIsPrefix | sync/sync_db.go:201-342 | in a hash-linked store the epochs that agree with a chain form a prefix |
| SyncConvergence.StuckAfterPops | sync/sync_db.go:373-417 | a store whose genesis epoch is not the chain's is reduced to that epoch and stays there |
| SyncConvergence.ConvergesIff | sync/sync_db.go:201-342 | from any linked store below the confirmed epoch the rounds end with its agreeing epochs continued by the chain, if and only if it does not hold a foreign genesis epoch |
| SyncCheck.CheckIfEpochIsReverted | sync/sync_check.go:148-196 | reports whether a stored pivot differs from the chain's, and errs exactly when the node does not answer for a stored epoch |
| SyncCheck.FindFirstRevertedEpochInRange | sync/sync_check.go:114-145 | binary probing finds the least reverted epoch of the range, zero if there is none; it errs only if the node leaves a stored epoch of the range unanswered |
| SyncCheck.FindFirstReverted | sync/sync_check.go:59-111 | growing windows find the least reverted epoch from one on, without underflow, under the same error condition |
| SyncCheck.PruneRevertedEpochData | sync/sync_check.go:199-216 | removes exactly the epochs from the given one on, at most 200 at a time; if a pop does not commit, the store ends where that pop would have started |
| SyncCheck.EnsureStoreEpochDataOk | sync/sync_check.go:22-56 | on success the store ends right before the least reverted epoch, or is unchanged if there is none; otherwise the node left a stored epoch unanswered and nothing changed, or a pop did not commit and the store ends above that epoch |
| SyncCheck.RevertedIsMonotone | sync/sync_check.go:114-145 | in a hash-linked store every epoch behind a reverted one is reverted, as the search assumes, whichever queries fail |
| LogPartitions.PrepareKeeps | store/mysql/store_common_partition_bn.go:64-121 | preparing keeps the index in order and all rows; the list stays as it is exactly if the latest partition has room, otherwise one empty partition is added |
| LogPartitions.AddKeeps | store/mysql/store_log.go:103-128 | adding later blocks keeps ranges disjoint and increasing, rows inside them and counts exact |
| LogPartitions.AddWidens | store/mysql/store_log.go:103-128 | a batch changes only the latest partition, whose range becomes the least that holds its former blocks and those of the batch |
| LogPartitions.AddAppends | store/mysql/store_log.go:116-120 | the rows of a batch come after all stored rows |
| LogPartitions.PopKeeps | store/mysql/store_common_partition_bn.go:291-337 | popping keeps the index in order and removes exactly the rows from the block on |
| LogPartitions.ShrunkSpan | store/mysql/store_common_partition_bn.go:291-337 | the blocks of a popped partition are exactly those it had before the popped block |
| LogPartitions.DropKeeps | store/mysql/store_common_partition_bn.go:459-492 | dropping the oldest partitions keeps the index in order and removes exactly their rows |
| LogPartitions.AllRowsSorted | store/mysql/store_common_partition_bn.go:212-220 | read partition by partition, all rows are in block order |
| LogSearch.CoveredBounds | store/mysql/store_common_partition_bn.go:398-427 | the covered range encloses all partitions and both its ends are taken |
| LogSearch.OverlappingIsComplete | store/mysql/store_common_partition_bn.go:212-220 | the partitions that overlap a range hold every matching row of it |
| LogSearch.OverlappingPicks | store/mysql/store_common_partition_bn.go:212-220 | the partitions that overlap the range, each once and in order of index |
| LogSearch.PrunedIff | store/mysql/store_common_partition_bn.go:181-194 | a search is refused if and only if something is covered and the range starts before the first covered block without ending exactly there |
| LogSearch.UncoveredIsRestIff | store/mysql/store_common_partition_bn.go:201-206 | the uncovered range reported is exactly the part of the range behind the covered blocks, if and only if the range does not start at the last covered block and go on |
| LogSearch.QueryIsScanIff | store/mysql/store_log.go:189-214 | reading tables up to a limit gives the scan of all their rows if and only if none of them has more |
| LogIndex.PopStep | store/mysql/store_log.go:132-169 | a pop removes exactly the rows from the block on, from the log as a whole, or nothing when rolled back |
| LogIndex.CommitsIff | store/mysql/store_log.go:152-166 | a pop commits if and only if all rows it removes are in the latest partition |
| LogIndex.PruneStep | store/mysql/store_common_partition_bn.go:459-492 | a prune keeps the log as a whole and pruned rows before the covered blocks; with more partitions than wanted besides the latest exactly the newest ones of that number stay, otherwise nothing changes |
| LogIndex.EveryRun | store/mysql/store_log.go:54-169 | after any run of prepares, adds, pops and prunes the index is in order and, with the pruned rows, holds exactly the plain log |
| LogIndex.QueryServesLog | store/mysql/store_common_partition_bn.go:167-209 | for a range from the first covered block on, the partitions found hold every matching row of the log, in block order |
| LogIndex.FoundIsCompleteIff | store/mysql/store_common_partition_bn.go:167-209 | a search that is not refused finds every matching row of the log if and only if no pruned row is in the range |
| LogIndex.MissesOnlyAtFirstBlock | store/mysql/store_common_partition_bn.go:167-209 | with something covered, such a search can miss rows only if its range starts before the first covered block and ends exactly there |
| LogIndex.FirstBlockSearchMisses | store/mysql/store_common_partition_bn.go:167-209 | a run after which a range that ends at the first covered block is answered without a pruned row of it |
| LogIndex.UncoveredSearchMisses | store/mysql/store_common_partition_bn.go:167-209 | a run after which nothing is covered and a search misses a pruned row |
| LogIndex.EveryQuery | store/mysql/store_log.go:171-215 | after any run, such a query equals the query over the plain log if and only if no table has more than the limit plus one matching rows |
| LogQuery.SuggestionFits | store/mysql/store.go:367-381 | up to the block before the row over the limit there are at most limit rows, one block later there are more |
| LogQuery.FittingTable | store/mysql/store_log_filter.go:86-148 | a table that passes its check, by the spread of its ids or by an exact count, has at most limit matching rows |
| LogQuery.TableFitsIff | store/mysql/store_log_filter.go:86-148 | if ids have no gaps, a table passes its check if and only if it has at most limit matching rows and, with topics, at most maxSet rows in the blocks |
| LogQuery.TableSuggestion | store/mysql/store_log_filter.go:151-218 | what the check of a table suggests starts where the query does, ends earlier, right before a block of the table, and has at most limit matching rows, or at most maxSet rows, in that table |
| LogQuery.TableSuggestsLongest | store/mysql/store_log_filter.go:151-218 | if ids have no gaps, a refused table suggests the longest range that fits it, or none exactly if its first block has too many rows |
| LogQuery.TableSuggestionFitsIff | store/mysql/store_log_filter.go:151-218 | over all tables it has at most limit rows if and only if the rows of the earlier tables and those of this table before the exceeding block are at most limit |
| LogQuery.TableSuggestionTooLarge | store/mysql/store_log_filter.go:151-218 | two tables for which the suggested range has more rows than the limit |
| LogQuery.AnswersExactly | store/mysql/store_log.go:189-214 | when every table passes its check, a bounded query answers in full exactly if the rows are at most limit, and otherwise suggests a range |
| LogQuery.AnswersUnique | store/mysql/store_log.go:189-214 | the answer of a bounded query is determined by the tables |
| LogStore.LogStore.PreparePartition | store/mysql/store_log.go:54-62 | the latest partition, or a new one when that is full |
| LogStore.LogStore.Add | store/mysql/store_log.go:64-129 | the step of the index; the log grows by exactly the batch |
| LogStore.LogStore.ShrinkBnRange | store/mysql/store_common_partition_bn.go:291-337 | shrinks exactly the ranges that reach the block, from the latest on |
| LogStore.LogStore.DeleteRows | store/mysql/store_log.go:152-166 | deletes the rows of those partitions; fails exactly when rows would leave a partition that is not the latest |
| LogStore.LogStore.Popn | store/mysql/store_log.go:132-169 | commits if and only if the epoch has a block mapping and all rows to delete are in the latest partition; otherwise nothing changes |
| LogStore.LogStore.PruneArchivePartitions | store/mysql/store_common_partition_bn.go:459-492 | drops the oldest partitions so that exactly the given number is left besides the latest, the newest ones; nothing changes if there are no more than that |
| LogQuery.ReadUnbounded | store/mysql/store_log.go:189-214 | reads every table up to the limit plus one |
| LogQuery.ReadBounded | store/mysql/store_log.go:189-214 | returns everything, or the verdict of the first table refused, or the row over the limit, as specified |
| LogStore.LogStore.GetLogs | store/mysql/store_log.go:171-215 | pruned ranges are refused; a bounded answer is complete; a range suggested after reading has at most limit rows and no longer one has, and there is none exactly if the first block has more; one suggested by a table's check fits under the exact condition |
| VirtualFilterLogs.AppendLive | store/mysql/store_log_virtual_filter.go:128-188 | a batch replaces the live rows of the blocks it names, in all partitions, and leaves the others |
| VirtualFilterLogs.AppendKeeps | store/mysql/store_log_virtual_filter.go:246-256 | widened ranges still hold all rows of their partition |
| VirtualFilterLogs.WidenIsLeast | store/mysql/store_log_virtual_filter.go:246-256 | a range is widened no more than needed to hold the blocks of a batch |
| VirtualFilterLogs.LiveIsLastNamed | store/mysql/store_log_virtual_filter.go:128-188 | after any run the live rows of a block, over all partitions, are exactly those of the last batch that named it |
| VirtualFilterLogs.LivePicks | store/mysql/store_log_virtual_filter.go:128-188 | the live rows of a block are its rows that are not deleted, each once and in order |
| VirtualFilterLogs.InExtent | store/mysql/store_log_virtual_filter.go:133-148 | the range of a batch holds all its blocks, and both ends are taken |
| VirtualFilterLogs.HashesAreNamed | store/mysql/store_log_virtual_filter.go:133-148 | the blocks a batch names are exactly those of its logs |
| VirtualFilterLogs.VirtualFilterLogStore.PreparePartition | store/mysql/store_log_virtual_filter.go:107-115 | creates a partition exactly if there is none or the latest is full |
| VirtualFilterLogs.VirtualFilterLogStore.Append | store/mysql/store_log_virtual_filter.go:128-188 | is rolled back exactly if the partition is no longer the latest; otherwise live rows change as specified |
| VirtualFilterLogs.Scan | store/mysql/store_log_virtual_filter.go:133-148 | one pass finds the lowest and highest block and the blocks named |
| TraceForest.Feed | rpc/cfxbridge/trace_builder.go:43-117 | whatever is fed, every stacked count stays positive, so no pop can fail |
| TraceForest.FeedForest | rpc/cfxbridge/trace_builder.go:43-117 | feeding a forest under any stack adds its bracketed form and counts its trees off the top frame |
| TraceForest.FlattensForest | rpc/cfxbridge/trace_builder.go:43-117 | the pre-order of any forest yields each call, its sub-calls and then its result, with nothing held back |
| TraceForest.CompleteIff | rpc/cfxbridge/trace_builder.go:26-41 | nothing is held back if and only if the list is the pre-order of a forest |
| TraceForest.SkipsAbsent | rpc/cfxbridge/trace_builder.go:43-47 | absent traces have no effect at all |
| TraceForest.OutputDeterminesInput | rpc/cfxbridge/trace_builder.go:26-117 | whenever building succeeds, matching the brackets of the output recovers the input with its counts |
| TraceBuilder.TraceBuilder.Append | rpc/cfxbridge/trace_builder.go:43-67 | never fails and performs one step of the machine |
| TraceBuilder.TraceBuilder.PopTop | rpc/cfxbridge/trace_builder.go:81-117 | pops every frame whose last sub-call is done |
| TraceBuilder.TraceBuilder.Build | rpc/cfxbridge/trace_builder.go:26-41 | succeeds if and only if the input without absent traces is the pre-order of a forest, and then returns its bracketed form |
| BlockTraces.RunsAreMaximal | rpc/cfxbridge/trace_builder.go:178-194 | the runs concatenate to the input, are of one transaction each, and neighbours differ |
| BlockTraces.SealedIff | rpc/cfxbridge/trace_builder.go:124-136 | a transaction is sealed if and only if its traces are the pre-order of a forest of calls, and then holds these bracketed by their results |
| BlockTraces.SealedAllIff | rpc/cfxbridge/trace_builder.go:166-208 | a block is built if and only if each of its transactions is complete, and then gives them in order |
| BlockTraces.SealedPosition | rpc/cfxbridge/trace_builder.go:124-159 | a transaction is sealed with the hash and the position that its traces agree on |
| BlockTraces.TransactionTraceBuilder.Append | rpc/cfxbridge/trace_builder.go:138-159 | takes an entry unless it belongs to another transaction |
| BlockTraces.TransactionTraceBuilder.Build | rpc/cfxbridge/trace_builder.go:124-136 | seals the transaction if its calls are complete |
| BlockTraces.BlockTraceBuilder.Seal | rpc/cfxbridge/trace_builder.go:196-208 | moves a complete transaction to the list and starts afresh |
| BlockTraces.BlockTraceBuilder.Append | rpc/cfxbridge/trace_builder.go:178-194 | fails exactly when a transaction ends with calls incomplete |
| BlockTraces.BlockTraceBuilder.Build | rpc/cfxbridge/trace_builder.go:166-176 | one list per maximal run of equal transaction hash, if all are complete |
| PriorityFees.SortTipsOk | rpc/handler/gasstation.go:123-128 | tips are kept and put in ascending order |
| PriorityFees.PercentileMonotone | rpc/handler/gasstation.go:131-154 | a percentile lies between the smallest and largest tip and does not decrease with the rank asked for |
| PriorityFees.PercentileIsNearestRank | rpc/handler/gasstation.go:131-154 | a percentile above 0 is the only value with at least that share of the tips no larger and less than that share smaller; 0 gives the smallest tip and 100 the largest |
| PriorityFees.LatestRangeIsExact | rpc/handler/gasstation.go:410-434 | the range holds every tip, both ends are tips, and there is none exactly without tips |
| PriorityFees.AverageMonotone | rpc/handler/gasstation.go:339-356 | averages exist exactly if there are tips, do not decrease with the percentile, and lie between the smallest and largest tip |
| PriorityFees.AverageIsMean | rpc/handler/gasstation.go:339-356 | an average is the mean, rounded down, over exactly the blocks that have the percentile, each counting once |
| FeeWindow.Place | rpc/handler/gasstation.go:235-249 | the place after the last block with a smaller number |
| FeeWindow.PushedOk | rpc/handler/gasstation.go:212-249 | a push keeps the window sorted by number, without duplicates and within capacity |
| FeeWindow.PushedKeepsLatest | rpc/handler/gasstation.go:212-249 | a push of a new block keeps the latest of the old blocks and the new one together, all of them unless they exceed the capacity |
| FeeWindow.WithoutOk | rpc/handler/gasstation.go:199-209 | a removal keeps it so and the block is gone |
| FeeWindow.WithoutPicks | rpc/handler/gasstation.go:199-209 | a removal keeps exactly the other blocks, in order |
| FeeWindow.CoversLatest | rpc/handler/gasstation.go:273-293 | the range of the tips in the window lies in the historical range |
| FeeWindow.HistoryIsLeast | rpc/handler/gasstation.go:250-293 | a block widens the historical ranges of tips and base fees no more than needed to hold its own |
| FeeWindow.PriorityFeeWindow.Push | rpc/handler/gasstation.go:212-232 | does nothing for a known block; otherwise inserts it in order, widens the historical ranges of tips and base fees to enclose it and drops the oldest over capacity, the hash map in step |
| FeeWindow.PriorityFeeWindow.InsertBlock | rpc/handler/gasstation.go:235-249 | inserts in order of number and indexes the block |
| FeeWindow.PriorityFeeWindow.Prune | rpc/handler/gasstation.go:224-231 | keeps the latest blocks and their index entries |
| FeeWindow.PriorityFeeWindow.Remove | rpc/handler/gasstation.go:199-209 | removes the block and its index entry if it is there |
| FeeWindow.PriorityFeeWindow.CalculateAvgPriorityFee | rpc/handler/gasstation.go:339-356 | the average over the blocks that have the percentile, which is their mean rounded down, or nothing if none has |
| FeeWindow.PriorityFeeWindow.CalculateAvgPriorityFees | rpc/handler/gasstation.go:327-337 | one average each or none at all; for percentiles in order the averages are in order and within the window's range, which is within the historical one |
| FeeWindow.PriorityFeeWindow.CalculateLatestPriorityFeeRange | rpc/handler/gasstation.go:410-434 | the exact range of tips in the window, within the historical range |
| EthGasStation.RoundKeeps | rpc/handler/eth_gasstation.go:98-142 | for any capacity and gas limits, a round keeps the hash list that of the last live blocks, each the parent of the next, and the window the last live blocks with a gas limit |
| EthGasStation.EveryRun | rpc/handler/eth_gasstation.go:98-150 | so does every run, so no block that was taken back stays in the window |
| EthGasStation.WindowShowsLive | rpc/handler/eth_gasstation.go:152-205 | every block of the window shows a live one: its number, hash and base fee, and all its tips in ascending order |
| EthGasStation.RoundConnectedIff | rpc/handler/eth_gasstation.go:98-142 | a round leaves the window's blocks on one chain if and only if it does not accept a block that is no child of the last one while the hash list is used up and the window keeps an older block |
| EthGasStation.AcceptSuffixIff | rpc/handler/eth_gasstation.go:138-140 | an accepted block keeps the window the end of the hash list if and only if it has a gas limit and the window has at most 100 blocks after it, or it has none and the window is empty |
| EthGasStation.ShortWindow | rpc/handler/eth_gasstation.go:98-150 | over any run with a capacity of at most 100 and no zero gas limits the window is the end of the hash list, and on one chain |
| DeepReorg.StaleBlockStays | rpc/handler/eth_gasstation.go:98-142 | with a capacity above 100 or zero gas limits, a run of honest answers after which a block of the abandoned branch stays in the window below a block of the new one |
| EthGasStation.GasStation.TrySync | rpc/handler/eth_gasstation.go:98-142 | performs one round: nothing, one block back, or one block further; complete exactly if there is no newer block |
| EthGasStation.GasStation.HandleReorg | rpc/handler/eth_gasstation.go:144-150 | takes the last hash off the list and its block out of the window |
| EthGasStation.GasStation.HandleBlock | rpc/handler/eth_gasstation.go:152-205 | pushes the block with sorted tips unless its gas limit is zero |
| EthGasStation.GasStation.PushHash | rpc/handler/eth_gasstation.go:224-230 | appends the hash and keeps the latest hundred |

## Left out

- FilterChain.FilterChain.PushBack: nodes are named by the hash they are indexed under and links are maps over these names, so heap aliasing of nodes is not captured.
- Eviction of old logs from the filter chains' LRU caches and the early stop of a traversal callback.
- Parsing of core space logs into epochs (`virtualfilter/cfx_chain.go:228-285`); reverts and epochs are the input.
- Filter establishment, garbage collection of idle filters and the retry loops of the filter workers.
- Capacities and blocking of channels, timers, memory backpressure and cancellation of the catch-up.
- Coordinator.EstimateTaskSize: arithmetic is over reals, floating point rounding is not modelled, and the configured sizes are at least one.
- The sorted and bounded history of results behind the size estimate (`sync/catchup/boost.go:268-279`); the estimate is proved for any list of results and the runs for any task sizes.
- Scheduler.EveryRun: epoch numbers are unbounded, so overflow near the end of the 64-bit range is not modelled.
- SyncConvergence.Converges: requires that the confirmed epoch plus the batch size fits in 64 bits; wrap-around of the range computation itself is modelled in `Syncer.SyncSize`.
- Leader election and the evm space syncer (`sync/sync_eth.go`), which is the same machine as the one modelled.
- LogIndex.EveryRun: batches are of later blocks than all stored ones, as the store's continuity check guarantees, and ids ascend within a table, as auto-increment gives them.
- VirtualFilterLogs.LiveIsLastNamed: no partition is collected during the run, and a block hash determines a block number.
- Contract-indexed logs, big contracts, the reorg version check of log queries, and query timeouts.
- Conversion of traces between the two spaces; traces are opaque values with a kind, a transaction hash and a position.
- BlockTraces.BlockTraceBuilder.Append: transaction hashes are not empty.
- FeeWindow.PriorityFeeWindow.CalculateAvgPriorityFees: percentiles are reals, floating point rounding is not modelled; fee trends and congestion are left out as easy.
- EthGasStation.GasStation.HandleBlock: deriving a transaction's tip from its fee cap or gas price is left out as easy.
- CfxFilterChain.MergeChanges: a list of reverts that starts with target 0 is excluded, since `CfxFilterChain.AppendMarker` says that no tree describes the chain after it.
- RPC proxies, node routing and health checks, rate limiting, configuration, metrics and logging.
