# Sync rollup full nodes, builder and codecs in Dafny

A rollup whose state is derived from L1 events is followed by two independent full nodes, one in
TypeScript on reth and one in Rust on ethrex, and fed by a builder that plans, signs and posts
batches. This project models the parts of the three that must agree, each in the form of its source:
classes with fields and loops where the source updates state, functions where it computes. Every
method is proved against a specification function, and the theorems are about those functions. What such a
function yields is also stated without it: byte by byte, field by field, or on a concrete history.

- `EventReplay`, `NodeHistory`, `Recovery`, `FullNode`, `NodeSteps`, `NodeRuns`, `NodeLimits`: the reth-based
  node as a state machine. L1 is a sequence of blocks with hashes and events; what the L2 engine mines for an
  event or a batch, and the root it reports, are arbitrary functions of the L2 chain. `NodeRuns.Follow` is
  the main theorem: recovery refines replay from scratch.
- `WrongStarts`: when a replay is right although it starts on an L2 chain, or from a checkpoint, that it
  should not start from.
- `ReplayCalls`, `RustNode`, `Watcher`, `Sorting`: the ethrex-based node and its L1 watcher, and exactly when
  its order of events makes a difference.
- `Bytes`, `Rlp`, `TxEncoding`, `Transactions`, `TxParsing`: RLP (Yellow Paper, Appendix B), EIP-1559,
  EIP-155 and EIP-2718 transactions, signed in one module and parsed in another.
- `Abi`, `Actions`, `Entries`, `Calldata`, `Preimages`: the Solidity ABI ("Formal Specification of the
  Encoding" of the Contract ABI Specification), nested calldata, and the strings that are signed.
- `Schedule`, `Replayers`, `MinedBlocks`: which L2 blocks the two nodes and the builder mine for the same L1
  events, and what exactly these hold.
- `Agreement`: the parts put together. Two engines made of the two schedules, each with its own parser and
  fetches, and a batch on its way from the builder to both nodes.
- `BaseFee`, `ExecutionCache`, `Plans`, `Genesis`: the base fee rule in three versions, plans and their
  consumption, and the splicing of genesis bytecode.

The hash, the signature scheme and the EVM are parameters. The hash is assumed to have no collision
only among the strings that a theorem names, since no function into 32 bytes is injective. Integer
widths of the Rust code are explicit; arithmetic wraps as in the release build that
`rollup1/deploy/local/start.sh` makes. An index or slice out of range, which panics there, is an error
result here.

## Where the code falls short

Each of these is a lemma with the exact condition, or with a concrete history.

- A fork below the retained hash window: the search stops at the oldest stored hash and recovery may
  start from a stale checkpoint. The node is synced exactly as `Recovery.Recovers` says
  (`NodeRuns.FollowPoll`, `Recovery.RecoveryExact`), its state is right for every engine exactly if the
  dropped and the new blocks below the checkpoint lead to the same calls
  (`WrongStarts.StaleCheckpointExact`), and `NodeLimits.DeepForkGoesWrong` is an instance.
- A reorg while the node is down: the restart fetches before it compares hashes, and the reorg is noticed
  exactly if fewer than 8 blocks came on top of the last block processed (`Recovery.DowntimeDetection`,
  `NodeRuns.FollowRestart`, `NodeLimits.DowntimeReorgGoesWrong`, `NodeLimits.DowntimeReorgNoticed`).
- A restart while the L2 chain reports another root than the tracked one, as it does after the owner has set
  the root: the saved state is dropped, the L2 chain is not, and every event is replayed on top of it. That
  is right exactly for a bare L2 chain, or one that holds what the first event makes of it
  (`WrongStarts.ForgettingExact`, `NodeLimits.DiscardGoesWrong`, `NodeLimits.OneCallSurvives`).
- The Rust watcher hands state updates over before the executions of the same range, the TypeScript node
  in log order. The tracked roots agree exactly if the executions alone end where all events end; the L2
  chains agree exactly if no update stands between two state changes of one block
  (`RustNode.RootsAgreeExactly`, `RustNode.ChainsAgreeExactly`, `RustNode.NodesChainExactly`).
- In a batch with an L2 to L1 call and no proxy deploy, the TypeScript node never sends the other
  transactions (`Schedule.BatchesAgree`, `MinedBlocks.NoneLost`).
- A typed transaction other than type 2 in a batch makes the ethrex-based node drop the whole batch; on its own
  it is dropped if it has the result of an L1 call (`Schedule.TypedBatchDiverges`,
  `Schedule.EventBatchesAgree`, `Schedule.EventSinglesAgree`).
- A single contract creation with the result of an L1 call is mined in one block by the TypeScript node
  and in two by the Rust node (`Schedule.SinglesAgree`).
- Of a batch that the builder planned, both nodes replay the first transaction only, since the entries of
  the others do not move the state (`Agreement.PlannedBatchReplayed`).
- Batches replay accounting events after all state changes of their block: if the last run of executions holds
  two changes, the tracked root ends at its newest accounting event, which need not have the newest state
  (`EventReplay.TrackedRootExactly`).
- A single event whose action at its own position is a call from L1 is one for the Rust node even if the L1
  transaction is an `executeL2TX`, which decides for the TypeScript node; and the two try a call with value
  out differently, with and without lending the operator a balance (`Schedule.SingleEventsAgree`).
- An immutable beyond the end of the genesis code: the TypeScript node appends its value, the Rust node stops
  (`Genesis.OutOfRange`).
- Action types above 4 decode as RESULT (`Actions.ActionRoundTrip`).
- The builder's fee estimate divides by zero if gas was used under a limit below 2
  (`BaseFee.EstimateCovers`).

The comments above both batch replayers (`rollup1/reth-fullnode/event-processor.ts:913`,
`rollup1/ethrex-fullnode/src/event_processor.rs:390-392`) speak of two L2 blocks; the code of both mines
three, and the model follows the code.

## Model

| member | source | states |
|---|---|---|
| NodeRuns.Follow | rollup1/reth-fullnode/event-processor.ts:1104-1140 | Main theorem on recovery: over every run of polls, chain extensions, shrinkages, reorgs, failed unwinds and restarts whose steps are followed, after every step the tracked root and the whole L2 chain equal one replay of the current L1 chain on top of the L2 chain that the last dropping restart found, and one replay from genesis if that chain is harmless |
| NodeRuns.FollowsInWindow | rollup1/reth-fullnode/event-processor.ts:1283-1326 | A step is followed if the fork is not below the oldest hash that the node stores when it looks back, and a restart after a reorg finds fewer than 8 blocks on top; a restart that drops what was saved is always followed |
| NodeRuns.FollowStep | rollup1/reth-fullnode/event-processor.ts:1104-1140 | A followed step keeps the node synced, on the L2 chain that the specification names, with exactly the memory that it names |
| NodeRuns.FollowPoll | rollup1/reth-fullnode/event-processor.ts:1104-1134 | One poll, both ways: it notices exactly a stored hash that is no longer canonical or a shorter chain; it is then synced if nothing is kept, or the chains have the same events up to the checkpoint and the new one goes on above it, and otherwise ends with the new blocks replayed on what the dropped ones had led to; a poll that notices and cannot unwind, or has no checkpoint, is right whatever was followed before; the memory afterwards is a function of the one before |
| NodeRuns.InWindow | rollup1/reth-fullnode/event-processor.ts:1283-1326 | A poll whose fork is not below the oldest stored hash is followed, on the checkpoint, failed-unwind and no-checkpoint branches alike |
| NodeRuns.FollowRestart | rollup1/reth-fullnode/fullnode.ts:97-121 | Restart and first poll, both ways: if the L2 chain reports another root than the saved one, the node knows L1 on top of the L2 chain it found, unless the poll wipes it; otherwise it is synced if nothing was dropped, or that was noticed (exactly if fewer than 8 blocks came on top) and recovered from, and in each other case ends in the exact wrong state |
| NodeLimits.DeepForkGoesWrong | rollup1/reth-fullnode/event-processor.ts:1283-1311 | Running the node: with a fork below the stored hashes the search stops at the oldest hash, the checkpoint below it is stale, and the poll ends at a root that is not the replay of L1 |
| NodeLimits.DowntimeReorgGoesWrong | rollup1/reth-fullnode/event-processor.ts:175-192 | Running the node: after a reorg while it is down and eight new blocks it keeps a root and an L2 block of a dropped one |
| NodeLimits.DowntimeReorgNoticed | rollup1/reth-fullnode/event-processor.ts:1241-1278 | Running the node: with seven blocks on top instead of eight it notices, and ends at the genesis root and an L2 chain without the dropped block; the two histories fix the depth of 8 from both sides |
| NodeLimits.DiscardGoesWrong | rollup1/reth-fullnode/fullnode.ts:105-114 | Running the node: on an unchanged L1 chain in which the owner has set the root, a restart drops the saved state and mines every execution a second time |
| NodeLimits.OneCallSurvives | rollup1/reth-fullnode/fullnode.ts:105-114 | Running the node: with a single execution in front of the owner's root the same restart does no harm |
| WrongStarts.ForgettingExact | rollup1/reth-fullnode/fullnode.ts:105-114 | Starting over on an L2 chain that was kept is right if and only if that chain is bare, or is what the first call, a single event, makes of a bare one and reports its outcome; for engines that skip what is there, mine as many blocks wherever else they mine, reach the posted states from genesis, and otherwise stray to unposted ones |
| WrongStarts.ForgettingHarmless | rollup1/reth-fullnode/fullnode.ts:105-114 | In those two cases it is right for every engine that skips a single event whose outcome is there |
| Agreement.RethStartsOver | rollup1/reth-fullnode/fullnode.ts:105-114 | The same condition for the reth-based node with its own schedule, whose skipping and counts are proved |
| WrongStarts.StaleCheckpointExact | rollup1/reth-fullnode/event-processor.ts:1394-1465 | Replaying the new chain on a checkpoint of the old one is right for every engine if and only if both chains lead to the same calls below it and, if no event is left above, to the same root; hashes play no part |
| Recovery.SyncedInvariant | rollup1/reth-fullnode/event-processor.ts:1168-1232 | What every step keeps, written out: the state is one replay; the hashes are those of the newest blocks, contiguous, at most 128, ending at the last processed block; checkpoints strictly ascend, at most 128, and each has the root and L2 height of replaying exactly the blocks strictly below its own |
| FullNode.Node.Poll | rollup1/reth-fullnode/event-processor.ts:1104-1134 | From any memory with an ordered window and checkpoints: recovers exactly if one of the newest hashes is stale or the chain got shorter, with the least stale block as the fork, and otherwise fetches the new blocks |
| FullNode.Node.HandleReorg | rollup1/reth-fullnode/event-processor.ts:1370-1476 | Whatever block is taken for the fork, the memory afterwards is the rolled-back one with the rest of the chain replayed on it, and all of it is saved |
| FullNode.Node.RollBack | rollup1/reth-fullnode/event-processor.ts:1382-1450 | The memory afterwards is unwound to the newest checkpoint below the fork, or that of a fresh node when there is none or the unwind fails |
| FullNode.Node.UnwindTo | rollup1/reth-fullnode/event-processor.ts:1394-1420 | Truncates the L2 chain, restores the root, and keeps exactly the hashes and checkpoints below the checkpoint |
| FullNode.Node.Wipe | rollup1/reth-fullnode/event-processor.ts:1434-1450 | A wiped node remembers nothing and stands at genesis |
| FullNode.Node.CatchUp | rollup1/reth-fullnode/event-processor.ts:1452-1465 | Fetches the blocks above the last one processed, in ranges, with the effect of one fetch, or does nothing |
| FullNode.Node.FindForkPoint | rollup1/reth-fullnode/event-processor.ts:1283-1311 | The binary search ends at a stale stored block that is the oldest, or the one below it seems fine; it is the least stale one if whatever seems fine below the known bad block has only canonical hashes below it |
| FullNode.Node.DetectReorg | rollup1/reth-fullnode/event-processor.ts:1241-1278 | Answers exactly if one of the newest 8 hashes is stale, and then with the least stale block of the whole history |
| FullNode.Node.FindCheckpointBefore | rollup1/reth-fullnode/event-processor.ts:1317-1326 | Returns the checkpoint that the specification calls the newest below the block |
| Recovery.CheckpointBeforeIsNewest | rollup1/reth-fullnode/event-processor.ts:1317-1326 | With checkpoints in order, that is the one with the greatest block below the fork |
| FullNode.Node.PruneFromBlock | rollup1/reth-fullnode/event-processor.ts:1331-1341 | Keeps exactly the hashes and checkpoints below the block |
| FullNode.Node.RecordBlockHashes | rollup1/reth-fullnode/event-processor.ts:1168-1190 | The history afterwards is the old one and the recorded blocks, cut to the newest 128; hashes already known are not replaced |
| FullNode.Node.PruneBlockHashHistory | rollup1/reth-fullnode/event-processor.ts:1223-1232 | Keeps exactly the hashes from some block on, 128 of them if there were more |
| FullNode.Node.SaveCheckpoint | rollup1/reth-fullnode/event-processor.ts:1197-1218 | Appends the L2 height and root before the block and keeps the newest 128 |
| FullNode.Node.ProcessFetched | rollup1/reth-fullnode/event-processor.ts:311-366 | The grouping loop ends in the replay of the fetched blocks and leaves a checkpoint in front of every block with events |
| FullNode.Node.ProcessGroup | rollup1/reth-fullnode/event-processor.ts:324-362 | A run of executions of one block: a batch of its changes followed by its accounting events if it has two changes, one by one otherwise |
| FullNode.Node.CollectConsecutive | rollup1/reth-fullnode/event-processor.ts:326-334 | Collects exactly the maximal run of executions of one L1 block |
| FullNode.Node.ReplayBatch | rollup1/reth-fullnode/event-processor.ts:1007-1012 | A batch leaves the tracked root at its last event |
| FullNode.FetchOrder | rollup1/reth-fullnode/event-processor.ts:204-309 | Sorting the concatenation of the two event queries gives the events in chain order |
| FullNode.Node.FetchAndProcessEvents | rollup1/reth-fullnode/event-processor.ts:197-401 | One fetch replays its blocks, extends hashes and checkpoints and saves all of it |
| FullNode.Node.FetchInBatches | rollup1/reth-fullnode/event-processor.ts:1456-1464 | Fetches adjoining ranges of 10000 blocks, the last one shorter if need be, which together have the effect of one fetch |
| FullNode.Node.Restart | rollup1/reth-fullnode/fullnode.ts:97-121 | Resumes from what was saved exactly if the L2 chain reports the saved root, starts over on the L2 chain it finds otherwise, and fetches before looking back |
| Recovery.DetectionExact | rollup1/reth-fullnode/event-processor.ts:1241-1278 | Although only 8 hashes are read, none of them is stale if and only if every stored hash is canonical |
| Recovery.DowntimeDetection | rollup1/reth-fullnode/event-processor.ts:175-192 | After a restart that fetched new blocks, a stale hash is among the newest 8 if and only if the old chain was left and fewer than 8 blocks came on top |
| Recovery.DowntimeRecoverable | rollup1/reth-fullnode/event-processor.ts:1370-1420 | After a restart that fetched over a reorg, a checkpoint up to which the chains have the same events has what recovery needs: hashes, L2 height and root, and all checkpoints before it |
| Recovery.DowntimeExact | rollup1/reth-fullnode/event-processor.ts:1370-1420 | Recovery after such a restart, both ways: right about the chain, or exactly the new blocks replayed on what the dropped ones had led to |
| Recovery.RecoveryExact | rollup1/reth-fullnode/event-processor.ts:1370-1476 | Recovery from any fork above only canonical hashes, both ways: right about the chain if nothing is kept, or the chains have the same events up to the checkpoint and the new one goes on above it; the state of the dropped blocks with the new ones on top otherwise |
| Recovery.SharedRecoverable | rollup1/reth-fullnode/event-processor.ts:1394-1420 | A checkpoint of a synced node is one of the new chain if the hashes below are canonical and the events below the same |
| Recovery.ForkInWindow | rollup1/reth-fullnode/event-processor.ts:1283-1326 | A fork that is not below the oldest stored hash meets that condition, whatever the search names |
| Recovery.RollBackKnows | rollup1/reth-fullnode/event-processor.ts:1406-1420 | Rolling back to a checkpoint of the new chain leaves a node right about all blocks below it, with a window no longer than before |
| Recovery.EarlierCheckpoint | rollup1/reth-fullnode/event-processor.ts:1206-1212 | Truncating the L2 chain to one checkpoint leaves every earlier checkpoint right |
| Recovery.CheckpointsExtend | rollup1/reth-fullnode/event-processor.ts:1197-1218 | Checkpoints stay strictly ascending, at most 128, and each equal to the replay of exactly the events below its block, over any fetch |
| Recovery.WindowAfterFetch | rollup1/reth-fullnode/event-processor.ts:1168-1232 | After a fetch up to the tip the history is one contiguous window that ends at the tip, with 1 to 128 hashes |
| Recovery.TrimAgain | rollup1/reth-fullnode/event-processor.ts:1168-1232 | Trimming after each of two adjoining fetches is trimming once after both |
| Recovery.FetchCompletes | rollup1/reth-fullnode/event-processor.ts:197-401 | A fetch takes a node that is right about the blocks below to one that is right about the chain |
| Recovery.ChainedHashes | rollup1/reth-fullnode/event-processor.ts:1283-1311 | Under hash chaining a stored hash that is still canonical vouches for every block below it, so stale hashes form one run at the top |
| EventReplay.FetchSplitIrrelevant | rollup1/reth-fullnode/event-processor.ts:1456-1464 | Where block ranges are split into fetches makes no difference to the state |
| EventReplay.RangeReplay | rollup1/reth-fullnode/event-processor.ts:311-366 | Replaying the events of a range is replaying its blocks one by one: no group crosses a block |
| EventReplay.ReplaySplits | rollup1/reth-fullnode/event-processor.ts:311-366 | A replay splits at every block |
| EventReplay.TrackedRootFollowsL1 | rollup1/reth-fullnode/event-processor.ts:337-348 | If no state change follows an accounting event within an L1 block, the tracked root ends at the last event, for executions and state updates in any mix of batch, single and accounting paths |
| EventReplay.TrackedRootExactly | rollup1/reth-fullnode/event-processor.ts:337-348 | For every list of events, the tracked root is the newest state if and only if the last run was not batched, has no accounting event, or its newest accounting event has that state |
| EventReplay.FinalRootIs | rollup1/reth-fullnode/event-processor.ts:337-348 | The tracked root after a list of events depends on nothing but its last run: the newest accounting state if that was batched and has one, the newest state otherwise |
| EventReplay.LastRunIs | rollup1/reth-fullnode/event-processor.ts:324-334 | That run, seen from the end, is a state update alone or as many executions of one block as there are |
| NodeHistory.CheckpointMoves | rollup1/reth-fullnode/event-processor.ts:1206-1212 | A checkpoint of one chain is one of every chain with the same events below it |
| RustNode.Processor.ProcessCycle | rollup1/ethrex-fullnode/src/event_processor.rs:54-200 | The cycle over the fetched events, which peels single events instead of grouping them, ends in the same root and L2 chain as the grouped replay |
| RustNode.PeelSingle | rollup1/ethrex-fullnode/src/event_processor.rs:94-165 | A run with at most one change may be processed event by event |
| ReplayCalls.ChainOfCalls | rollup1/reth-fullnode/event-processor.ts:311-366 | Of all events only the calls reach the engine: the L2 chain is the fold of one call for each run of executions of a block that changes the state |
| ReplayCalls.CallsExactly | rollup1/ethrex-fullnode/src/l1_watcher.rs:140-250 | Leaving the state updates out leads to the same calls if and only if none stands between two state changes of one block, and to fewer otherwise |
| RustNode.ChainsAgreeExactly | rollup1/ethrex-fullnode/src/l1_watcher.rs:140-250 | Handing updates over first leads to the same L2 chain, for every engine and from every state, if and only if no update stands between two state changes of one block |
| RustNode.RootsAgreeExactly | rollup1/ethrex-fullnode/src/l1_watcher.rs:140-250 | It leads to the same tracked root if and only if there is no execution, or the executions alone end at the root at which all events end |
| RustNode.RootsMeetSimply | rollup1/ethrex-fullnode/src/l1_watcher.rs:140-250 | Where accounting comes last in its block: if and only if the range has no execution, or ends with one, or its last execution has the state of its last update |
| RustNode.BatchingMatters | rollup1/ethrex-fullnode/src/l1_watcher.rs:140-250 | A range that ends with an execution and still leads to two roots, because two changes parted by an update are batched without it |
| RustNode.NodesAgree | rollup1/ethrex-fullnode/src/event_processor.rs:54-200 | Two engines, each node with fetches of its own: the same L2 chain if no update divides the changes of a block and the engines mine alike for the calls that are replayed; the same root if and only if the roots meet in the last fetch of the ethrex-based node that had events |
| RustNode.NodesChainExactly | rollup1/ethrex-fullnode/src/event_processor.rs:54-200 | With one engine, over all engines and states: the same L2 chain if and only if no update divides the changes of a block, however each node cuts L1 into fetches |
| RustNode.EthrexRunChain | rollup1/ethrex-fullnode/src/event_processor.rs:54-200 | Wherever the ethrex-based node cuts the chain into fetches, it mines the L2 chain of one replay |
| RustNode.UpdateOrderMatters | rollup1/ethrex-fullnode/src/l1_watcher.rs:140-250 | The smallest instance: after an execution and a state update behind it the two roots differ |
| Agreement.NodesMineTheSame | rollup1/ethrex-fullnode/src/event_processor.rs:54-200 | With the engines made of the two schedules, both nodes mine the same L2 chain from the same L1 blocks if no update divides the changes of a block and each single event and each batch is one on which the schedules agree |
| Agreement.RethMines | rollup1/reth-fullnode/event-processor.ts:484-540 | What the engine of the reth-based node mines for one call: the replay of these events at the time of their own L1 block, and nothing for a single event whose outcome is there |
| Agreement.EthrexMines | rollup1/ethrex-fullnode/src/event_processor.rs:94-165 | The same for the ethrex-based node |
| Agreement.WatcherSees | rollup1/ethrex-fullnode/src/l1_watcher.rs:53-252 | The list that the watcher returns is, event by event, the one the ethrex-based node is modelled on: the updates of the chain in order, then its executions |
| Agreement.PlannedCalls | rollup1/builder/execution-planner.ts:204-233 | Of a planned batch the nodes replay the first transaction on its own, if it moves the state; all further entries look like accounting |
| Agreement.PlannedBatchReplayed | rollup1/reth-fullnode/rpc-server.ts:264-288 | From plan to replay: the builder mines all transactions in one block, both nodes mine the first alone and yet track the root of all, so their blocks are equal if and only if the batch is one transaction |
| Sorting.SortRestoresOrder | rollup1/ethrex-fullnode/src/l1_watcher.rs:240-241 | Sorting any permutation of a strictly ascending list by (block, log index) restores it |
| Watcher.GetEvents | rollup1/ethrex-fullnode/src/l1_watcher.rs:53-252 | For every iteration order of the hash map the watcher returns the same list: updates, then our executions in chain order, each with the action consumed at its own position and a result on the first only; what stands where is fixed log by log in `EventOfLog` |
| Watcher.EventOfLog | rollup1/ethrex-fullnode/src/l1_watcher.rs:71-238 | From the logs alone: execution log k leads to the event at the place that the updates and the executions before it leave, with its own states, block, transaction and index and the timestamp of its own block or 0; it carries the consumed action at its position within its L1 transaction exactly if there are that many decodable consumed logs, and the first RESULT exactly if it is the first execution; it is taken for a call from L1 exactly if that action is of type CALL |
| Watcher.ConsumedAt | rollup1/ethrex-fullnode/src/l1_watcher.rs:147-182 | The consumed actions of an L1 transaction are the decoded ones of its logs, one each, in log order, with hash zero where a log has no second topic |
| Watcher.UpdateAt | rollup1/ethrex-fullnode/src/l1_watcher.rs:122-145 | Each state update of our rollup is listed once, in log order, with its own root |
| Watcher.EventsCounted | rollup1/ethrex-fullnode/src/l1_watcher.rs:53-252 | The list holds as many events as there are updates and executions of our rollup, updates first |
| Watcher.FirstResultIs | rollup1/ethrex-fullnode/src/l1_watcher.rs:223-229 | The attached result is the first action of type RESULT in the list |
| Watcher.FirstPass | rollup1/ethrex-fullnode/src/l1_watcher.rs:71-145 | Groups exactly our decodable executions by L1 transaction, and lists the updates |
| Watcher.SecondPass | rollup1/ethrex-fullnode/src/l1_watcher.rs:147-182 | Lists the decodable consumed actions of each L1 transaction in log order |
| Watcher.PairAll | rollup1/ethrex-fullnode/src/l1_watcher.rs:212-238 | Whatever order groups are taken in, all their pairs together are those of the chain-order list |
| Watcher.InsideIsPairs | rollup1/ethrex-fullnode/src/l1_watcher.rs:215-238 | The executions of one transaction within the chain-order list are its own list paired by position |
| Watcher.AttachesScheduledResult | rollup1/ethrex-fullnode/src/l1_watcher.rs:223-229 | The result attached to an execution is the one the schedule of the ethrex-based node starts from |
| Rlp.WalkEncoded | rollup1/ethrex-fullnode/src/event_processor.rs:986-1042 | Encoding any byte strings and nested lists and walking over the result yields their payloads and their own encodings in order |
| Rlp.WalkExact | rollup1/ethrex-fullnode/src/event_processor.rs:1088-1108 | On any payload on which the walk completes, the raw spans are not empty, concatenate to the payload, and each decodes on its own to the payload found beside it |
| Rlp.DecodeEncoded | rollup1/ethrex-fullnode/src/event_processor.rs:1005-1042 | The first item of an encoding is found whole, whatever follows |
| Rlp.DecodeLocal | rollup1/ethrex-fullnode/src/event_processor.rs:1005-1042 | Decoding an item reads nothing behind it |
| Rlp.EncodingForms | rollup1/ethrex-fullnode/src/tx_signer.rs:160-188 | The forms of the Yellow Paper in literal bytes: one byte below 0x80 is its own encoding, up to 55 bytes follow one length byte, more follow a length without leading zeros |
| Rlp.CollectItems | rollup1/ethrex-fullnode/src/event_processor.rs:986-1002 | The loop of the list decoder is the walk, errors included |
| Rlp.CollectRaw | rollup1/ethrex-fullnode/src/event_processor.rs:1088-1108 | The loop of the sender recovery collects the raw spans of the same walk |
| TxEncoding.EncodeU64 | rollup1/ethrex-fullnode/src/tx_signer.rs:121-133 | Appends the Yellow Paper encoding of the number |
| TxEncoding.EncodeAddress | rollup1/ethrex-fullnode/src/tx_signer.rs:135-138 | Appends the encoding of the 20 bytes |
| TxEncoding.EncodeU256Bytes | rollup1/ethrex-fullnode/src/tx_signer.rs:145-158 | Appends the encoding of the 32 bytes without leading zeros |
| TxEncoding.EncodeBytes | rollup1/ethrex-fullnode/src/tx_signer.rs:160-176 | Appends the encoding of any byte string, short, single-byte or long |
| TxEncoding.EncodeListHeader | rollup1/ethrex-fullnode/src/tx_signer.rs:178-188 | Appends the prefix of a list of that size |
| TxEncoding.EncodeRlpLength | rollup1/ethrex-fullnode/src/event_processor.rs:1175-1183 | The second set of encoders appends the same prefixes |
| TxEncoding.RlpEncodeItem | rollup1/ethrex-fullnode/src/event_processor.rs:1163-1172 | And the same encoding of any byte string |
| Transactions.TxSigner.SignTx | rollup1/ethrex-fullnode/src/tx_signer.rs:36-116 | Emits, with the next nonce, the byte 2 and exactly one list of twelve items: chain id, nonce, 0, fee, gas limit, destination, value, data, an empty access list, and parity, r and s of the signature of the hash of the same envelope with the first nine items; every number reads back without a leading zero |
| TxParsing.SignedParses | rollup1/ethrex-fullnode/src/event_processor.rs:930-983 | Whatever the signer emits parses back to its destination, value and data; the preimage rebuilt from raw bytes is the signed one, so the recovered sender is the signer |
| TxParsing.PreimageRebuilt | rollup1/ethrex-fullnode/src/event_processor.rs:1068-1116 | For any type 2 transaction of at least 12 items, access lists included, the rebuilt preimage is byte for byte the envelope of the first nine |
| TxParsing.LegacyRebuilt | rollup1/ethrex-fullnode/src/event_processor.rs:1119-1158 | The same for legacy transactions, with the three fields of EIP-155 when there is a chain id |
| TxParsing.LegacyParses | rollup1/ethrex-fullnode/src/event_processor.rs:956-982 | Legacy transactions with and without a chain id, contract creations included, parse back to their contents and signer |
| TxParsing.LegacyLayout | rollup1/ethrex-fullnode/src/event_processor.rs:956-982 | The legacy transactions that this is about, item by item: nonce, gas price, gas limit, destination, value, data, v, r and s, and what was hashed, with chain id and two empty strings if there is a chain id |
| TxParsing.ParsedFields | rollup1/ethrex-fullnode/src/event_processor.rs:930-983 | What is read of any transaction that parses: type 2 from behind its first byte with at least 12 items, all others as legacy ones with at least 9; destination, if any, value and data from their own places |
| TxParsing.RlpDecodeTxMinimal | rollup1/ethrex-fullnode/src/event_processor.rs:930-983 | The parser with its loops is the specified parser on every input, malformed ones included |
| TxParsing.RecoverEip1559Sender | rollup1/ethrex-fullnode/src/event_processor.rs:1068-1116 | Hashes the specified preimage and recovers from it, or fails below 12 fields |
| TxParsing.RecoverLegacySender | rollup1/ethrex-fullnode/src/event_processor.rs:1119-1158 | Hashes the specified legacy preimage and recovers from it, or fails below 9 fields |
| TxParsing.RlpBytesToU64 | rollup1/ethrex-fullnode/src/event_processor.rs:1056-1065 | Reads the bytes big-endian, modulo 2^64 |
| Actions.ActionRoundTrip | rollup1/ethrex-fullnode/src/l1_watcher.rs:311-354 | Decoding the encoding of an action gives the action back if and only if its type is at most 4, for all data and scope lengths and whatever follows |
| Actions.DecodeEncodedAction | rollup1/ethrex-fullnode/src/l1_watcher.rs:311-354 | For other type bytes exactly the type is replaced by RESULT |
| Actions.ConsumedRoundTrip | rollup1/ethrex-fullnode/src/l1_watcher.rs:288-308 | The event data, the 0x20-prefixed form that is hashed, decodes to the action |
| Actions.EqualHashesEqualActions | rollup1/ethrex-fullnode/src/event_processor.rs:257-261 | Equal action hashes mean equal actions, if the hash tells these two encodings apart |
| Actions.AbiEncodeAction | rollup1/ethrex-fullnode/src/event_processor.rs:713-775 | The byte-pushing encoder produces nine head words, the data section and the scope section, with the right offsets |
| Actions.ActionLayout | rollup1/ethrex-fullnode/src/event_processor.rs:713-775 | Place by place: an offset of 32; nine words with type, rollup, destination, value, data offset, flag, source address, source rollup and scope offset; the data behind their length and padded with zeros; the scope behind its length; and nothing else |
| Actions.DecodedFields | rollup1/ethrex-fullnode/src/l1_watcher.rs:311-354 | What the decoder makes of any tuple of nine words: every fixed field from its own place, the flag set by any non-zero byte, types above 4 read as RESULT, data and scope from the two offsets |
| Actions.DataExactly | rollup1/ethrex-fullnode/src/l1_watcher.rs:357-366 | The data at an offset: nothing at 0 or with less than a word behind it, otherwise exactly as many bytes as the word says, all of which must be there |
| Actions.ScanExactly | rollup1/ethrex-fullnode/src/l1_watcher.rs:369-383 | The scope at an offset: as many words as are stated or present, whichever is less |
| Abi.DecodeUint256Array | rollup1/ethrex-fullnode/src/l1_watcher.rs:369-383 | The array loop reads as many words as are stated or present |
| Calldata.BytesParam | rollup1/ethrex-fullnode/src/event_processor.rs:610-637 | A dynamic parameter is recovered whatever lies between head and section and behind it |
| Calldata.ParamExactly | rollup1/ethrex-fullnode/src/event_processor.rs:610-637 | A parameter is read as some bytes if and only if its word is an offset at which, behind their length, these bytes stand within the call data; everything else is an error |
| Calldata.TransactionFound | rollup1/ethrex-fullnode/src/event_processor.rs:610-637 | The transaction inside an executeL2TX call comes out as it went in |
| Calldata.TransactionLayout | rollup1/ethrex-fullnode/src/event_processor.rs:414-430 | Such a call is the selector, the rollup, the offset 64 and the transaction behind its length |
| Calldata.IncomingRoundTrip | rollup1/ethrex-fullnode/src/event_processor.rs:839-876 | The built executeIncomingCrossChainCall carries its arguments for every data length: the data is recovered at index 2 and the scope offset lands on an empty array |
| Calldata.BuildExecuteIncomingCalldata | rollup1/ethrex-fullnode/src/event_processor.rs:839-876 | The builder produces that calldata |
| Calldata.IncomingLayout | rollup1/ethrex-fullnode/src/event_processor.rs:839-876 | That calldata, place by place: selector, destination, value, data offset, source address, source rollup, scope offset, the data and an empty scope |
| Calldata.LoadRoundTrip | rollup1/ethrex-fullnode/src/event_processor.rs:781-918 | Following every offset of the built loadExecutionTable calldata reaches exactly one entry, without deltas, under the given hash, with the given next action |
| Calldata.LoadLayout | rollup1/ethrex-fullnode/src/event_processor.rs:781-835 | That calldata, place by place: selector, the words 32, 1, 32, 96, the hash, 128 and 0, and the next action |
| Calldata.PreloadIsOneResult | rollup1/ethrex-fullnode/src/event_processor.rs:880-918 | For the L2 to L1 preload that action has type RESULT, the given data and flag, and zero or nothing in every other field |
| Calldata.BuildL2ToL1LoadCalldata | rollup1/ethrex-fullnode/src/event_processor.rs:880-918 | The builder produces that calldata |
| Calldata.BuildLoadExecutionTableCalldata | rollup1/ethrex-fullnode/src/event_processor.rs:781-835 | The terminal builder produces its instance with empty data |
| Preimages.SignatureDeterminesBatch | rollup1/builder/proof-generator.ts:151-207 | Equal public input hashes mean equal batches in every part: parent hash, block number, state deltas with signed ether amounts, verification keys, action hashes, next actions, blobs and call data; the hash need only tell apart the strings hashed for the two batches |
| Preimages.EntryParsed | rollup1/builder/proof-generator.ts:173-207 | The packed concatenation of an entry parses back to the entry and its keys |
| Preimages.InputsParsed | rollup1/builder/proof-generator.ts:151-168 | The packed public inputs parse back to their parts |
| Preimages.EntryLayout | rollup1/builder/proof-generator.ts:173-207 | The concatenation of an entry, place by place: the array of state deltas with rollup, both states and the ether amount in two's complement, the array of keys, the action hash, and the encoded next action |
| Preimages.InputsLayout | rollup1/builder/proof-generator.ts:151-168 | The public inputs, place by place: parent hash, block number, entry hashes, blob hashes, hash of the call data |
| Preimages.SignedLayout | rollup1/builder/proof-generator.ts:91-123 | What is hashed for the signature of these entries: the parent hash and number of the target block, the hash of each entry with its keys, no blob, and the hash of empty call data |
| Preimages.KeyOfDelta | rollup1/builder/proof-generator.ts:96-107 | Key i of an entry is the one registered for the rollup of its delta i |
| Preimages.SignPostBatchProof | rollup1/builder/proof-generator.ts:91-139 | The nested loops hash the batch made of the entries and their keys, no blobs and no call data; without a target block, the list of entry hashes |
| Preimages.FallbackDeterminesEntries | rollup1/builder/proof-generator.ts:129-132 | Without a target block the hash still determines every entry |
| Entries.DeltasBack | rollup1/builder/proof-generator.ts:177-182 | State deltas survive their words, signed 256-bit ether amounts included |
| Schedule.BatchesAgree | rollup1/reth-fullnode/event-processor.ts:917-997 | The two nodes mine the same blocks, timestamps and transactions for a batch if and only if it makes no L1 call, or deploys a proxy, or holds no other transaction |
| Schedule.EventBatchesAgree | rollup1/ethrex-fullnode/src/event_processor.rs:393-575 | From the L1 call data, each node with its own parser: the same blocks if and only if both can read the whole batch or neither mines anything, and what they read is a batch as above |
| Schedule.SingleEventsAgree | rollup1/ethrex-fullnode/src/event_processor.rs:202-381 | Every single event, calls from L1 and legacy transactions included: the same blocks if and only if both nodes take it for the same call from L1 and their trials promise the same result, or both for a transaction that both or neither can read and that does not create a contract while having a result |
| Schedule.EventSinglesAgree | rollup1/ethrex-fullnode/src/event_processor.rs:313-381 | Among them an executeL2TX: if and only if both can read what they need or neither can, and the transaction does not create a contract while having a result |
| Schedule.TypedBatchDiverges | rollup1/ethrex-fullnode/src/event_processor.rs:930-983 | One transaction of another type than 2, such as EIP-2930, in a batch that the reth-based node can read: that node mines the batch, the other drops all of it |
| Schedule.OtherTypesUnread | rollup1/ethrex-fullnode/src/event_processor.rs:930-983 | The parser of the ethrex-based node fails on every typed transaction but type 2 |
| Schedule.ResultsAgreeExactly | rollup1/ethrex-fullnode/src/l1_watcher.rs:212-238 | Exactly which lists of consumed actions give both nodes the same result of an L1 call, at every position |
| Schedule.AlikeCompatible | rollup1/ethrex-fullnode/src/event_processor.rs:414-430 | A library that reads call data and transactions as this parser does, or fails, is one that the agreement theorems admit |
| Schedule.SinglesAgree | rollup1/ethrex-fullnode/src/event_processor.rs:313-381 | For a single execution they agree unless it creates a contract and has the result of an L1 call |
| Schedule.BuilderMatchesBatch | rollup1/builder/execution-planner.ts:275-410 | With a proxy deploy the builder mines the three blocks both nodes later replay, with the same timestamps and contents |
| Schedule.BuilderMatchesSingle | rollup1/builder/execution-planner.ts:397-410 | Without one it mines the two blocks both nodes replay from the single execution |
| Schedule.TimestampsIncrease | rollup1/reth-fullnode/state-manager.ts:1253-1258 | L2 timestamps strictly increase over every run of mined blocks, whatever timestamps are asked for |
| Schedule.SameTime | rollup1/ethrex-fullnode/src/engine.rs:78-82 | The undefined and the zero L1 timestamp lead to the same block times in both nodes |
| Schedule.PostedTransactionRead | rollup1/ethrex-fullnode/src/event_processor.rs:414-430 | A transaction that was signed, wrapped into executeL2TX and posted on L1 is read back with its own bytes, contents and sender |
| Schedule.DeployRead | rollup1/ethrex-fullnode/src/event_processor.rs:432-446 | A createCrossChainProxy transaction is recognised, and its original address and rollup are read from the call data |
| Schedule.FirstSplits | rollup1/ethrex-fullnode/src/event_processor.rs:480-489 | What the ethrex-based node sends first is, as a multiset, the deploys and others of the reth-based one |
| Schedule.Engine.MineBlock | rollup1/reth-fullnode/state-manager.ts:1243-1258 | Mines what is pending at the later of the given time and one past the head |
| MinedBlocks.CallFromL1 | rollup1/ethrex-fullnode/src/event_processor.rs:202-300 | Whenever a node takes an event for a call from L1 it mines one block, not older than asked for, with exactly two transactions: the call with destination, value, data, source address and source rollup of the consumed action, and the entry for the RESULT of our rollup with the data and the flag of the trial, which ends in an empty RESULT |
| MinedBlocks.TsSingleMined | rollup1/reth-fullnode/event-processor.ts:567-600 | An executeL2TX in the reth-based node: its transaction alone in one block, or, with a second consumed action and a destination, behind a block with exactly the entry for that action, field by field |
| MinedBlocks.RustSingleMined | rollup1/ethrex-fullnode/src/event_processor.rs:313-381 | The same in the ethrex-based node, with the first RESULT of the first execution, and an empty block in front of a contract creation |
| MinedBlocks.TsOtherwise | rollup1/reth-fullnode/event-processor.ts:772-795 | Other call data is sent again as it is, in a block of its own; what cannot be read mines nothing |
| MinedBlocks.RustOtherwise | rollup1/ethrex-fullnode/src/event_processor.rs:304-381 | Other call data mines nothing in the ethrex-based node; a transaction without a result is not looked into |
| MinedBlocks.TsBatchMined | rollup1/reth-fullnode/event-processor.ts:917-982 | A batch in the reth-based node, block by block and counted transaction by transaction: everything in one block if none has a result; otherwise at T, if a proxy is deployed, the deploys and whatever has no result; at T + 1 exactly the entries that the calls need, where a proxy stands for what the last deploy of it in the batch says, or for what is registered; at T + 2 exactly the calls |
| MinedBlocks.RustBatchMined | rollup1/ethrex-fullnode/src/event_processor.rs:455-575 | The same in the ethrex-based node, where the first block is mined if anything belongs into it |
| MinedBlocks.NoneLost | rollup1/reth-fullnode/event-processor.ts:931-943 | In such a batch every transaction is mined as often as it occurs if and only if the first block is mined or nothing belongs into it |
| MinedBlocks.TsItemAt | rollup1/reth-fullnode/event-processor.ts:864-877 | Each executeL2TX of a batch is read as one transaction, in order, with the second consumed action as its result |
| MinedBlocks.RustItemAt | rollup1/ethrex-fullnode/src/event_processor.rs:414-465 | The same in the ethrex-based node, with the first RESULT for the first execution of an L1 transaction |
| MinedBlocks.OtherCallsSkipped | rollup1/ethrex-fullnode/src/event_processor.rs:419-426 | Call data that do not start with the selector are no transaction |
| Replayers.ReplayBatchTs | rollup1/reth-fullnode/event-processor.ts:851-997 | The method with its decoding passes and sends mines the specified schedule, and nothing if a transaction cannot be read or there is none |
| Replayers.ReplayBatchRust | rollup1/ethrex-fullnode/src/event_processor.rs:393-575 | Likewise for the ethrex-based node |
| Replayers.ReplaySingleTs | rollup1/reth-fullnode/event-processor.ts:567-795 | Likewise for any single event: an executeL2TX, a call from L1, or a legacy transaction |
| Replayers.ReplaySingleRust | rollup1/ethrex-fullnode/src/event_processor.rs:202-381 | Likewise in the ethrex-based node, where a call from L1 is looked for first |
| BaseFee.FixedWidthCuts | rollup1/ethrex-fullnode/src/event_processor.rs:647-668 | On all 64-bit inputs nothing overflows 128 bits, the fixed-width fee is the big-integer one modulo 2^64, and they agree if and only if that fits |
| BaseFee.NodesAgree | rollup1/ethrex-fullnode/src/event_processor.rs:647-668 | They agree up to a parent fee of 2^63 with gas used at most the limit |
| BaseFee.NextFeeExact | rollup1/reth-fullnode/state-manager.ts:1381-1399 | The rule exactly: unchanged at the target, above it up by the scaled eighth of the parent fee but by at least one, below it down by the scaled eighth |
| BaseFee.EstimateExact | rollup1/builder/builder.ts:554-575 | The builder's estimate exactly: the same without the minimal rise, and never below one |
| BaseFee.MonotoneInGas | rollup1/reth-fullnode/state-manager.ts:1381-1399 | The next fee never falls when more gas is used |
| BaseFee.MonotoneInFee | rollup1/reth-fullnode/state-manager.ts:1381-1399 | Nor when the parent fee is higher |
| BaseFee.MovesByAnEighth | rollup1/reth-fullnode/state-manager.ts:1381-1399 | With an even limit it moves by at most an eighth, or by one |
| BaseFee.GuardIsDead | rollup1/reth-fullnode/state-manager.ts:1395-1397 | The zero guard never acts: a positive fee stays positive |
| BaseFee.GenesisRun | rollup1/reth-fullnode/state-manager.ts:279 | Over every run of blocks from the genesis fee it never drops below 7 |
| BaseFee.EstimateCovers | rollup1/builder/builder.ts:554-575 | The estimate exists unless gas was used under a limit below 2, and then its double covers the next fee |
| ExecutionCache.Cache.FindAndConsumeExecution | rollup1/reth-fullnode/state-manager.ts:815-850 | Takes out the first entry with that hash whose deltas for our rollup all start at the state and leaves all others in order, or leaves everything if there is none; the buckets stay in step with the one list |
| ExecutionCache.ConsumesEarliest | rollup1/reth-fullnode/state-manager.ts:824-849 | That is the earliest entry under the hash whose deltas for our rollup all start at the state, or nothing when there is none |
| ExecutionCache.ConsumeTakes | rollup1/reth-fullnode/state-manager.ts:824-849 | Which entry that is, written out: the first one with that hash of which every delta for our rollup, and no other delta, has to start at the state |
| ExecutionCache.OrderKept | rollup1/reth-fullnode/state-manager.ts:800-865 | Over every run the cached entries are in the order in which they were loaded |
| ExecutionCache.ConsumeInBucket | rollup1/reth-fullnode/state-manager.ts:819-849 | Consuming from the list is consuming from the bucket and leaves other buckets alone |
| ExecutionCache.Cache.CacheExecutions | rollup1/reth-fullnode/state-manager.ts:800-809 | Appends to the list; every key maps to the non-empty list of entries under it |
| ExecutionCache.Conservation | rollup1/reth-fullnode/state-manager.ts:800-865 | Over every run what was loaded is what was consumed, cleared and is still cached, as multisets |
| Plans.PlanDrains | rollup1/builder/execution-planner.ts:183-475 | Caching a plan and consuming its root actions in order never sticks, serves exactly the plan in order, ends at the planned state and leaves earlier entries behind |
| Plans.PlanL2Batch | rollup1/builder/execution-planner.ts:183-250 | Root action i is of type L2TX, of our rollup, with transaction i and nothing else, entry i has its hash, one delta of our rollup, from the current state to the new one in the first entry and none in the others, and an empty RESULT next; the plan is chained and moves no ether; duplicates allowed |
| Plans.TransactionsTold | rollup1/builder/execution-planner.ts:183-250 | Entries for different transactions have different action hashes, if the hash tells their encodings apart |
| Plans.PlanL2ToL1Call | rollup1/builder/execution-planner.ts:257-475 | With and without deploy: the user's entry answers an L2TX with their transaction, leads from the state behind the deploy to the simulated one or the hash that stands in for it, and on to a CALL with target, value, data and sender; the last one answers a RESULT with the return data and the flag and moves the value out; the plan is chained and moves minus the call value |
| Plans.ChainDrains | rollup1/reth-fullnode/state-manager.ts:815-850 | Chained entries are consumed in order, and nothing else is |
| Plans.LastOwnDelta | rollup1/reth-fullnode/state-manager.ts:815-850 | An entry moves the state to the new state of its last delta for our rollup; deltas of other rollups play no part |
| Plans.OtherHashes | rollup1/reth-fullnode/state-manager.ts:815-822 | Entries under other hashes disturb nothing |
| Genesis.OrderIrrelevant | rollup1/reth-fullnode/state-manager.ts:188-205 | For disjoint slots inside the code and values no longer than their slot, every order of filling gives the same code |
| Genesis.SplicedDigits | rollup1/ethrex-fullnode/src/genesis.rs:176-195 | Both loops give code of unchanged length with the padded value in each slot and every other digit as before |
| Genesis.SlotDigits | rollup1/reth-fullnode/state-manager.ts:188-205 | Digit by digit: each slot holds zeros followed by its value, and every other digit is as before |
| Genesis.PatchesExactly | rollup1/reth-fullnode/state-manager.ts:188-205 | There is a slot to fill for each place of each immutable whose value is known, and no other |
| Genesis.OutOfRange | rollup1/ethrex-fullnode/src/genesis.rs:188-195 | A slot beyond the end of the code: one node puts the padded value behind what is left of the code, the other stops |
| Genesis.NodesBuildSameCode | rollup1/ethrex-fullnode/src/genesis.rs:163-198 | Iterating over the immutables in different orders, the two nodes build the same code |
| Genesis.SpliceImmutablesTs | rollup1/reth-fullnode/state-manager.ts:188-205 | The nested loops apply the patches in order |
| Genesis.SpliceImmutablesRust | rollup1/ethrex-fullnode/src/genesis.rs:176-195 | The nested loops apply the patches in order and stop at one that does not fit |

## Left out

- NodeRuns.Follow: holds for runs whose steps are followed, which `NodeRuns.FollowPoll` and `NodeRuns.FollowRestart` show to be exact for the node's records: after a step that is not, it says nothing more about the run. A replay on a kept L2 chain equals the one from genesis under the condition of `WrongStarts.ForgettingExact`.
- WrongStarts.ForgettingExact: the way back needs an engine that reaches the posted states; one way, `WrongStarts.ForgettingHarmless`, does not.
- Agreement.NodesMineTheSame: one way only. What the engines mine for a call is compared for each event and batch, where the conditions are exact; calls that differ might still add up to the same chain.
- Schedule.SingleEventsAgree: requires the same of an event that is no call from L1 as Schedule.EventBatchesAgree does.
- Schedule.EventBatchesAgree: requires that the library of the reth-based node, which is not part of this model, reads a transaction as this repository's parser does wherever both can read it, and that both nodes take the same action for a result (`Schedule.ResultsAgreeExactly`).
- Watcher.GetEvents: requires the logs in chain order with unique positions, as an L1 node returns them.
- Genesis.OrderIrrelevant: values longer than their slot are excluded, since they shift the code behind them.
- RPC failures, timeouts and retries: a poll is one atomic step against one L1 chain, and sending a transaction succeeds. A transaction that is both a proxy deploy and an L2 to L1 call, or occurs twice in a batch, is sent twice by both nodes; what a pool does with the second copy is not modelled.
- A reorg between the fetch of a restart and the first poll after it: both see one L1 chain.
- The ether balance: updateEtherBalance has no caller, so the balance in checkpoints never changes.
- The hash stored in a checkpoint and the L2 height stored with the state: neither is read.
- The full-replay branch of the processing loop: nothing throws the message it waits for.
- The trial of a call from L1 (`eth_call`), whose answer is a parameter of each node, and the check of that answer against posted return data; the proxy whose target a legacy transaction is forwarded to.
- The fork path of rollbackToBlock: unwinding is plain truncation.
- Proxy deploys with non-zero bytes in front of the address word, which one decoder rejects and the other ignores.
- Gas, nonces and fees inside the operator's preload transactions: a preload is the entry it loads.
- The transaction pool's capacity and ordering: a mined block holds everything that is pending.
- A 256-bit size of 2^64 or more stops the Rust decoder by a panic; here it is an error like any other, so a log with such a size is skipped.
- The search of the AST for immutables (`find_immutables`): which value an immutable gets is a parameter.
- Derivation of the operator key, genesis allocation, persistence formats, hex and JSON parsing.
- planL1ToL2Call and the other single-entry plans: one entry each, nothing chained.
- The proofer, most of the builder's orchestration, HTTP servers, proxies and relays, the scripts, the dashboard and the Solidity contracts.
- keccak256, ECDSA and the EVM: arbitrary functions.
