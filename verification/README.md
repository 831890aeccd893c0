# Xaya X: chainstate, sync and notifications

Xaya X keeps a local, prunable copy of a block tree in step with an external
"base" chain that can reorg, and tells game processes (GSPs) how to walk through
that tree with detach and attach messages. This project models that core in Dafny
and proves what it promises over whole runs.

## How the model is built

| file | what it holds |
|---|---|
| `BlockTree.dfy` | the tree of all blocks, ancestry, snapshots of the base chain |
| `ChainTable.dfy` | the `blocks` table, the walk over parents, the inductive invariants `Steady` and `Good` |
| `Reorg.dfy`, `ChainRuns.dfy` | `SetTip`, `ImportTip`, `Prune` as functions on the table; invariant, reorg theorem, runs, sanity check |
| `Chainstate.dfy` | class `Chainstate`: the SQL statements and loops, proved against those functions |
| `Notify.dfy`, `Requests.dfy` | the messages of `PushZmqBlocks`, why they are a legal walk, and exactly what each request is answered |
| `SyncSpec.dfy`, `SyncSafety.dfy`, `SyncRuns.dfy` | the sync task as a state machine, and its safety over every run |
| `StepOutcomes.dfy` | exactly what one step of the sync task does, told by heights |
| `Provenance.dfy` | whatever is stored or sent is a block that the base chain handed in |
| `DeepReorg.dfy`, `CheckedRuns.dfy` | reorgs below main[L]: exactly when a step aborts, and runs of which nothing is assumed |
| `Finality.dfy` | base chains without deep reorgs, and the stronger invariant that holds then |
| `Convergence.dfy` | the sync task reaches the tip of a base chain that stands still |
| `CatchUp.dfy`, `Livelock.dfy` | a game process that polls `game_sendupdates3`, and a run after which one is stuck |
| `Witnesses.dfy` | runs that reach the failures whose exact conditions are proved elsewhere |
| `Controller.dfy`, `Sync.dfy` | classes `RunData` and `Sync`, proved against the state machine |
| `EthChain.dfy`, `EthOutcomes.dfy`, `CoreChain.dfy` | block ranges of the two connectors, and what decides the outcome of an attempt |
| `PendingGate.dfy`, `PendingFate.dfy` | the gate for pending moves, and what becomes of each batch |
| `Publisher.dfy`, `PublisherLaws.dfy` | tracking, sequence numbers and routing, and what they mean message by message |
| `UpdateBatches.dfy`, `BlockCache.dfy`, `Mempool.dfy` | the other supporting cores |
| `Positions.dfy` | parts of a sequence, described by positions |

The table is a map from hash to block and branch number. A `Tree` says what a hash
determines: the parent, and the height, which is one more than the parent's. A failed
`CHECK` is an outcome of its own (`Aborted`, `CheckFailed`, `Died`, `None`), and the
theorems say when it can not happen. The base chain is an oracle: each call is answered
from some snapshot, which may be a different one for every call, or with an exception
(`None` as a `Reply`). `L` is the lowest unpruned main-chain height and main[L] the
block there.

There are two invariants of the chainstate. `Steady` says that (branch, height) is unique,
branch zero is exactly the ancestry of the tip from L up, side branches have no gaps, and
the bottom parent of a side branch is stored, or missing with the bottom at or below L.
`Good` adds that such a missing parent is an ancestor of main[L].

### Assumptions

- Block data is authentic (`Fits`): two blocks with the same hash have the same parent
  and height. Heights count from a genesis block at height zero.
- For sync safety, each range of blocks comes from a chain that contains the main[L] of that
  moment (`SyncRuns.RangesHold`). The other answers of a step, the tip height and the block
  to import, may come from any chain: `Steady` holds all the same. `DeepReorg.AbortsIff` says
  exactly which ranges abort a step.
- For `Good`, and with it for catch-up: what one snapshot shows at least the maximum reorg
  depth below its tip, every later snapshot still has (`Finality.Final`). This implies the
  assumption before (`Finality.FinalIsSafe`).
- `--xayax_block_range` is a 32-bit signed value of at least one, as `CHECK`ed by the
  source (`src/sync.cpp:124`).
- Convergence and catch-up are about a base chain that stands still; catch-up needs
  heights below 2^32, since `PushZmqBlocks` computes differences as 32-bit unsigneds
  (`src/controller.cpp:743`, `src/controller.cpp:803`).

### What the proofs show about the code

- **Catch-up can loop forever.** After `ImportTip` jumps over a stored side branch
  (`src/chainstate.cpp:283-293`), blocks of the base chain can be stored on side branches
  ("strays"). A request from a stray first detaches it and its stray ancestors. If such a run
  of strays is at least as long as the block range, some request attaches exactly the
  blocks it has just detached. `CatchUp.CatchUpTheorem` proves the exact condition: every
  accepted block leads to the tip if and only if every run of strays is shorter than the
  block range. `Livelock.StuckReachable` proves, for every block range up to 2^31 - 4, that this
  happens: a base chain without deep reorgs and a run of the sync task from an empty database
  after which some block is stuck.
- **A reorg below main[L] does not always abort.** The check for it
  (`src/sync.cpp:207-213`) is only reached if nothing of the range is stored. If the first
  block of the range or its parent is on a stored side branch, that branch becomes the main
  chain, down to the same or a lower L. The process then dies if the two chains are severed, because
  parents from main[L] and from the range end at different missing blocks
  (`src/controller.cpp:779-790`), or if sanity checks are on and some other block with a missing
  parent is above the new L. Otherwise it goes on, and the messages lead to the new tip. Both
  happen, after runs from an empty database in which all was well
  (`Witnesses.SurvivesReachable`, `Witnesses.SeveredReachable`). With sanity checks on,
  and no exception that skips them, the invariant still holds after every step that does not
  abort (`CheckedRuns.RunKeeps`).
- **A refused pending move can kill the process.** `ChainstateTipChanged` sets the tip before
  it sends the queue and clears the queue afterwards (`src/pending.cpp:62-74`). If a send
  throws, the tips are equal with a full queue, and if the next event is `PendingMoves`, the
  `CHECK` at `src/pending.cpp:45` fails (`PendingGate.CutFlushAborts`). A tip event in between
  heals that, unless it is another flush that throws (`PendingGate.CutIff`). Batches that were
  sent before the exception stay queued, and are sent again (`PendingGate.SentTwice`) or dropped:
  batches are sent once and in order if and only if no flush ever threw after it had sent one
  (`PendingGate.OnceIff`).
- **A request before the first import kills the process**: `CHECK_GE (pruningDepth, 0)`
  at `src/controller.cpp:646-647`. `SyncRuns.RequestsLegal` proves that this is the only
  reachable failed `CHECK` of a request, as long as ranges contain main[L].
- **The last element of an empty vector is taken** at `src/controller.cpp:744-746` when the
  base chain has become shorter than the queried range, or with a block range of zero. The
  model calls this `Undefined`, `Notify.SendUpdatesLegal` proves exactly when it happens, and
  `Witnesses.UndefinedReachable` has a run and a request for which it does.
- **A `to` block at the fork height fails** after the detaches were sent
  (`src/controller.cpp:729-736`), although a comment there calls this case "all done"; the
  model follows the code. `CatchUp.RequestToResult` proves that no other `to` block of the
  base chain fails when local state and base chain agree.
- **The in-memory block storage answers a range of zero blocks with one block** if the start
  height is stored (`src/blockcache.cpp:119-137`, `BlockCache.InMemoryBlockStorage.GetRange`).
  `BlockCache.RangeExact` shows that the caching chain is right nevertheless.
- **The txid check of pending moves is skipped after a move with an empty txid**
  (`src/zmqpub.cpp:444-446`); the model keeps that.

## Model

| member | source | states |
|---|---|---|
| `ChainTable.WalkIsAncestry` | src/chainstate.cpp:378-436 | the walk from a side-branch block lists its ancestors one height at a time, top-down and linked by parents, all of them on side branches, and ends next to the block where it stops |
| `ChainTable.ForkEndOnMain` | src/chainstate.cpp:398-406 | a stored block that descends from main[L] always walks back to a stored main-chain block, never into pruned ones |
| `ChainTable.BranchSegment` | src/chainstate.cpp:458-519 | between two blocks of one side branch lie exactly the ancestors of the upper one, all on that branch |
| `ChainTable.MainUnique` | src/chainstate.cpp:219-228 | the rows of branch zero determine L and the tip |
| `Reorg.MaxBranch` | src/chainstate.cpp:95-118 | an upper bound for all branch numbers that is attained, zero for an empty table |
| `Reorg.MarkTipMain` | src/chainstate.cpp:120-182 | after the bulk relabelling, branch zero is exactly the ancestry of the new tip, down to the same L if the walk meets the main chain, and otherwise down to the end of the walk |
| `Reorg.MarkTipContiguous` | src/chainstate.cpp:120-182 | the relabelling leaves every side branch free of gaps, including those it cuts or creates |
| `Reorg.MarkTipUnique` | src/chainstate.cpp:120-182 | the relabelling keeps (branch, height) unique |
| `Reorg.MarkTipGrounded` | src/chainstate.cpp:120-182 | after the relabelling, missing parents of side branches are still pruned ancestors of the tip |
| `Reorg.MarkTipBottomed` | src/chainstate.cpp:120-182 | the relabelling makes no side branch with a missing parent start higher than before |
| `Reorg.MarkTipChained` | src/chainstate.cpp:120-182 | marking a stored block whose walk reaches down to L keeps branch numbers and tree in agreement, also where the walk replaces the whole main chain |
| `Reorg.MarkTipGood` | src/chainstate.cpp:120-182 | marking any stored descendant of main[L] as tip keeps `Steady` and `Good`, with L unchanged |
| `Reorg.InsertGood` | src/chainstate.cpp:79-93 | inserting a block with stored parent on a fresh branch keeps both invariants |
| `Reorg.SetTipAny` | src/chainstate.cpp:301-376 | in a steady state, for any authentic block: no `CHECK` fails, it is rejected if and only if neither it nor its parent is stored, the old tip is reported, and the main chain becomes the ancestry of the block as far down as that is stored |
| `Reorg.SetTipGood` | src/chainstate.cpp:301-376 | for a block that descends from main[L], moreover, `Steady` and `Good` are kept with the same L |
| `Reorg.SetTipKeepsBlocks` | src/chainstate.cpp:301-376 | a successful `SetTip` loses no block, changes no block's data, and stores a block that is new with all the data that was handed in, and nothing else |
| `Reorg.PruneDeletes` | src/chainstate.cpp:438-455 | pruning deletes exactly the main-chain rows up to the height, and changes no other row |
| `Reorg.ImportKeepsBlocks` | src/chainstate.cpp:268-299 | after an import the block is stored, as it was handed in if it is new; no other block is new, and no block's data changes |
| `Reorg.ImportDeletes` | src/chainstate.cpp:268-299 | exactly what an import above the tip deletes: for an unknown block the main chain and nothing else; for a stored one the rest of its walk to the main chain and the main-chain blocks below that, so that other side branches and the old tip's own part stay |
| `Reorg.PruneGood` | src/chainstate.cpp:438-455 | pruning below the tip keeps both invariants, with L the larger of the old one and the pruned height plus one |
| `Reorg.ImportGood` | src/chainstate.cpp:268-299 | importing any block above the tip, stored or not, descending from the tip or not, never fails a `CHECK`, leaves it as the whole main chain, and keeps `Steady`; `Good` is kept if it descends from the tip |
| `Reorg.FirstImportGood` | src/chainstate.cpp:268-299 | the first import succeeds and gives a table with that block alone |
| `Reorg.ReorgTheorem` | src/chainstate.cpp:301-436 | after a reorg the main chain is the ancestry of the new tip down to the same L, no block is lost, the walk from the old tip is exactly the displaced main-chain blocks top-down, and `SetTip` back to the old tip restores the main chain |
| `Reorg.ForkEndLow` | src/chainstate.cpp:398-406 | in a steady state every walk ends on the main chain or at a missing block below L, so never above the tip |
| `Reorg.ForkEndGrounded` | src/chainstate.cpp:398-406 | under `Good`, the missing block is a pruned ancestor of main[L], as the code assumes |
| `Reorg.PruneKeepsWalks` | src/chainstate.cpp:438-455 | pruning changes no fork walk |
| `Reorg.ImportKeepsWalks` | src/chainstate.cpp:268-299 | importing an unknown block changes no fork walk |
| `ChainRuns.ApplyInv` | src/chainstate.cpp:268-455 | each of `SetTip`, `ImportTip` and `Prune` that meets its premise succeeds and keeps the invariant, also on the empty table; for `Steady`, imported blocks need only be above the tip |
| `ChainRuns.RunInvariant` | src/chainstate.cpp:268-455 | over every run of these operations in any order: no abort, and the invariant (`Steady`, or `Good` with the stronger premise) holds after it |
| `ChainRuns.SaneMeans` | src/chainstate.cpp:457-564 | for any table of authentic blocks in unique slots, the invariant or not: `SanityCheck` passes if and only if the table is empty, or there is a main chain, side branches are linked without gaps, and those that end at a missing block start at or below the lowest main-chain block |
| `ChainRuns.SaneIff` | src/chainstate.cpp:457-564 | where branch numbers agree with the tree, `SanityCheck` passes if and only if no side branch with a missing parent starts above L, so always in a steady state |
| `ChainstateDb.QueryIsWalk` | src/chainstate.cpp:408-435 | one range query per branch yields exactly the walk over parents through that branch |
| `Reorg.RelabelUnique` | src/chainstate.cpp:144-181 | no intermediate state of the relabelling violates UNIQUE (branch, height) |
| `ChainstateDb.Chainstate.QueryTip` | src/chainstate.cpp:301-325 | the highest row of branch zero, if there is one |
| `ChainstateDb.Chainstate.GetMainchainHeight` | src/chainstate.cpp:53-74 | the highest or lowest height of branch zero, -1 if there is none |
| `ChainstateDb.Chainstate.GetFreeBranchNumber` | src/chainstate.cpp:95-118 | one above all branch numbers in use |
| `ChainstateDb.Chainstate.SelectBranch` | src/chainstate.cpp:415-432 | the rows of a branch up to a height, all of them and by falling height |
| `ChainstateDb.Chainstate.GetHashForHeight` | src/chainstate.cpp:230-247 | the main-chain block of a height, none if and only if there is none |
| `ChainstateDb.Chainstate.GetForkBranch` | src/chainstate.cpp:378-436 | terminates, and returns exactly the walk that follows parents one at a time to a main-chain or missing block, across any number of branches; false if and only if the block is not stored |
| `ChainstateDb.Chainstate.TakeIntoMain` | src/chainstate.cpp:163-181 | the row-by-row updates never violate the unique constraint and add up to the relabelling |
| `ChainstateDb.Chainstate.ReplaceMain` | src/chainstate.cpp:163-181 | moving the main chain away and taking a fork walk into its place never fails, and is the relabelling |
| `ChainstateDb.Chainstate.MarkAsTip` | src/chainstate.cpp:120-182 | never fails and performs the relabelling of `Reorg.MarkTip` |
| `ChainstateDb.Chainstate.SetTip` | src/chainstate.cpp:301-376 | agrees with `Reorg.SetTip` in all three outcomes |
| `ChainstateDb.Chainstate.ImportTip` | src/chainstate.cpp:268-299 | agrees with `Reorg.ImportTip`, and fails exactly when that does |
| `ChainstateDb.Chainstate.CheckBranch` | src/chainstate.cpp:496-560 | passes if and only if every row of the branch is linked and its bottom is sound |
| `ChainstateDb.Chainstate.SanityCheck` | src/chainstate.cpp:457-564 | passes if and only if `ChainRuns.Sane` holds of the table |
| `Notify.DownLegal` | src/controller.cpp:738-759 | further detaches towards a `to` block below the fork point continue the walk; undefined if and only if the query is empty |
| `Notify.QueriedLegal` | src/controller.cpp:794-847 | queried attaches continue the walk from the fork point, on success and on both false returns; no `CHECK` fails; the last block attached is stored, or below L |
| `Notify.FromForkLegal` | src/controller.cpp:713-847 | all of `PushZmqBlocks` after the fork point is known is a legal walk, and attaches end at a block that is stored, or below L |
| `Notify.AcceptedValue` | src/controller.cpp:646-711 | for every accepted block, stored or pruned, the fork point is the end of a linked list of detaches and not above the tip, so that the check on the target height holds |
| `Notify.SendUpdatesLegal` | src/controller.cpp:402-451 | for every steady chainstate and any snapshots, the messages are the reported detaches and attaches and lead from `from` to the reported `toblock`, which after attaches is stored or below L; a request that fails stops exactly at the fork point; blocks that are not accepted are refused; undefined behaviour if and only if the detach query is empty |
| `Notify.SendUpdatesEmpty` | src/controller.cpp:646-647 | on an empty chainstate a request with a `from` block fails a `CHECK` |
| `Notify.NotAccepted` | src/controller.cpp:649-682 | a request from a block that is neither stored nor below L on the base chain is not ok and sends nothing |
| `Requests.StopOutcome` | src/controller.cpp:717-736 | a `to` block that the base chain does not know, or at the height of the fork point: not ok, and exactly the detaches to the fork point are sent |
| `Requests.UpOutcome` | src/controller.cpp:794-847 | otherwise, without a `to` block or with one above: the queried range is attached as a whole if its first block stands on the fork point and its last one is stored or below L; if not, the request is not ok and attaches nothing |
| `Requests.DownOutcome` | src/controller.cpp:738-763 | with a `to` block below: ok if and only if the base chain has the fork point, and then exactly the next blocks below it are detached, as many as the range allows |
| `Notify.GivenLegal` | src/controller.cpp:765-792 | the attaches that come with a tip update, cut at the fork point, complete the walk to the new tip; neither `CHECK` fails; no block is both detached and attached |
| `Notify.TipPushLegal` | src/controller.cpp:620-792 | a tip update sends detaches and then attaches that lead from the old tip to exactly the new tip, no block in both |
| `SyncSafety.AttachRestGood` | src/sync.cpp:224-232 | the further blocks of a range extend the tip one by one, whatever chain they are from; the checks on `prev` never fail |
| `SyncSafety.AttachBlocksAny` | src/sync.cpp:195-232 | in a steady state a range of any chain never aborts the attach loop; it fits if and only if its first block or the parent of that is stored; the tip becomes its last block |
| `SyncSafety.AttachBlocksGood` | src/sync.cpp:195-232 | for a chain that contains main[L], L is unchanged, both invariants are kept, and the range always fits at height L |
| `SyncSafety.MainIsSegment` | src/sync.cpp:224-232 | the main chain is exactly the blocks L..k of the base chain that has the tip at height k |
| `SyncSafety.ListIsPath` | src/sync.cpp:237-243 | the reactivated fork branch reversed and followed by the new blocks is one linked path to the new tip |
| `SyncSafety.ListStart` | src/sync.cpp:186-193 | that list reaches back at least to the child of the fork point with the old tip |
| `SyncSafety.CallbackGood` | src/controller.cpp:586-618 | the callback for a reorg sends a legal walk, passes the sanity check, and its pruning keeps both invariants |
| `SyncSafety.ImportStep` | src/sync.cpp:128-150 | a jump forward with any chain imports the block, sends its attach and keeps `Steady`, or does nothing if the chain is too short; `Good` is kept if the chain has the local tip |
| `SyncSafety.FirstImportStep` | src/sync.cpp:128-150 | so does the first import, from any chain |
| `SyncSafety.ExtendGood` | src/sync.cpp:234-250 | after an attach, the messages lead from the old tip to the new one, both invariants are kept, and the local main chain is a segment of the base chain that answered, pruning included |
| `SyncRuns.FollowsMore` | src/controller.cpp:586-618 | a legal walk from the tip extends the message stream to the new tip |
| `SyncRuns.FollowsImport` | src/controller.cpp:637-644 | an import starts a new part of the stream, at the imported block |
| `SyncRuns.DoubledBounds` | src/sync.cpp:121-126 | `numBlocks` stays between one and the configured range, wrap-around of the shift included |
| `SyncRuns.SearchInv` | src/sync.cpp:195-215 | going back strictly lowers the start height and never goes below L |
| `SyncRuns.ContinueInv` | src/sync.cpp:252-262 | jumping forward with any answer or asking for more never aborts and keeps the sync invariant |
| `SyncRuns.RunningStep` | src/sync.cpp:152-263 | a step whose range comes from a chain with main[L] never aborts and keeps the sync invariant, whatever the other answers are; it says where L and the tip move |
| `SyncRuns.StepSafe` | src/sync.cpp:152-263 | the same for every state of the sync task, the empty one included, with exceptions of the base chain, and with callbacks that throw after an attach or an import |
| `SyncRuns.RunSafe` | src/sync.cpp:77-104 | so does every run, from any state with the invariant, in which each range comes from a chain with the main[L] of that moment; callbacks may throw at any step |
| `SyncRuns.SyncNeverAborts` | src/sync.cpp:77-263 | over every such run from an empty database: no `CHECK` fails, the chainstate is steady, `numBlocks` is within its bounds, and between imports the untagged messages are a legal walk that ends at the local tip |
| `SyncRuns.RequestsLegal` | src/controller.cpp:402-451 | in every chainstate that such a run reaches, requests are answered with a legal walk, attaches end at a block that is stored or below L, and a `CHECK` fails if and only if nothing was imported yet |
| `StepOutcomes.FailedOutcome` | src/sync.cpp:195-215 | a range that does not fit leaves the chainstate alone, doubles the window up to the block range, and makes the next range start one old window lower, or at L |
| `StepOutcomes.SearchLands` | src/sync.cpp:195-215 | so a search passes the highest block that fits by less than one window |
| `StepOutcomes.ShortOutcome` | src/sync.cpp:217-250 | a range that fits but is shorter than asked for makes the last block of the base chain the tip, prunes what is too deep, resets the window to one and ends the search for more; if the callback throws, pruning and reset are left out |
| `StepOutcomes.FullOutcome` | src/sync.cpp:217-262 | a full range makes its last block the tip; then the sync jumps forward if and only if that is below the maximum reorg depth under the base tip, to exactly that block, and otherwise doubles the window |
| `StepOutcomes.FirstOutcome` | src/sync.cpp:159-178 | the first step imports the block at the maximum reorg depth below the base tip, or the genesis, and sends its attach |
| `Provenance.StepContained` | src/sync.cpp:128-263 | all that a step stores or sends is, with all its data, a block that was stored before or that an answer of this step contained |
| `Provenance.NothingMadeUp` | src/sync.cpp:77-263 | over every run from an empty database: every stored block and the block of every attach and detach message is, data included, a block of some answer; if the answers agree on each hash, it is exactly the block handed in under that hash |
| `DeepReorg.AttachSwaps` | src/sync.cpp:195-232 | a range of a chain without main[L] that fits replaces the main chain, down to where its own ancestry is stored |
| `DeepReorg.EndAfter` | src/chainstate.cpp:378-436 | how walks below the old L end after that: on the new main chain, or where they ended before |
| `DeepReorg.DeepPush` | src/controller.cpp:620-792 | the tip update after that sends a walk from the old tip to the new one, or fails a `CHECK`, if and only if the chains are severed |
| `DeepReorg.DanglingIff` | src/chainstate.cpp:535-551 | the sanity check after that fails if and only if some block with a missing parent was above the new L before |
| `DeepReorg.AbortsIff` | src/sync.cpp:152-263 | a step aborts if and only if its range lacks main[L], and either nothing of it is stored at height L, or the chains are severed, or the sanity check is reached and fails |
| `CheckedRuns.StepKeeps` | src/sync.cpp:152-263 | with sanity checks that no exception skips, for all answers of the base chain, a step that does not abort keeps the sync invariant, message stream included |
| `CheckedRuns.RunKeeps` | src/sync.cpp:77-263 | with sanity checks that no exception skips, for all answers, a run aborts if and only if it comes to a fatal range, and otherwise keeps the sync invariant |
| `Witnesses.SurvivesReachable` | src/sync.cpp:195-250 | for every block range, a run from an empty database in which every range has main[L], and then a range without it, after which the process goes on with the other chain as its main chain |
| `Witnesses.SeveredReachable` | src/controller.cpp:779-790 | for every block range, such a run where the range is attached and then aborts the process |
| `Witnesses.UndefinedReachable` | src/controller.cpp:738-746 | a run from an empty database, and a request that takes the last element of an empty vector, for every block range |
| `Finality.MovedSettled` | src/sync.cpp:252-262 | if no answer undoes what is settled, the block to import descends from the local tip, and main[L] is settled again |
| `Finality.StepSettled` | src/sync.cpp:152-263 | then a step keeps `Good`, and its range contains main[L] |
| `Finality.FinalIsSafe` | src/sync.cpp:77-263 | over every run against a base chain without deep reorgs, each range contains main[L], and the chainstate is good |
| `Convergence.AdvanceProgress` | src/sync.cpp:217-262 | a successful attempt moves the tip to its last block or beyond, and ends the run only if the range came back short |
| `Convergence.StepProgress` | src/sync.cpp:152-263 | against a fixed base chain with main[L], each step ends at its tip or lowers the measure (phase, then distance to L or to the tip), and stays on the chain |
| `Convergence.RunToTip` | src/sync.cpp:77-104 | repeated steps terminate with the local tip equal to the base tip, and keep `Good` |
| `Convergence.SyncedMain` | src/sync.cpp:77-263 | the local main chain is then the base chain from L on |
| `CatchUp.RequestResult` | src/controller.cpp:402-451 | in sync, every accepted request without `to` succeeds and ends block-range blocks above the fork point, or at the tip |
| `CatchUp.RequestToResult` | src/controller.cpp:713-803 | in sync, a request with a `to` block of the base chain gets as far towards it as the range allows, up or down, and fails if and only if it is at the fork height |
| `CatchUp.PollClean` | src/controller.cpp:402-451 | without strays, k requests from a block of the base chain lead exactly k times the range up, through pruned heights too |
| `CatchUp.PollAccepted` | src/controller.cpp:402-451 | without strays, polling from any accepted block is at the tip after k requests if and only if k ranges cover the distance from its fork point |
| `CatchUp.ArrivesOnChain` | src/controller.cpp:402-451 | with short strays only, polling arrives within as many requests as there are blocks left |
| `CatchUp.LongStrayLoops` | src/controller.cpp:402-451 | a run of strays as long as the range has a block from which polling never gets on |
| `CatchUp.CatchUpTheorem` | src/controller.cpp:402-451 | polling reaches the tip from every accepted block if and only if every run of strays is shorter than the block range |
| `CatchUp.SyncThenCatchUp` | src/sync.cpp:77-104 | the same for the chainstate in which the sync task ends, from any state with its invariant |
| `CatchUp.ImportLeavesStrays` | src/chainstate.cpp:268-299 | an import over a stored side branch of the base chain turns it into strays, with unchanged walks |
| `Livelock.QuietStep` | src/sync.cpp:152-263 | a step without an import attaches blocks on top of main[L], and loses only pruned main-chain blocks |
| `Livelock.JumpStep` | src/sync.cpp:252-258 | after a switch to a short branch and back, one step attaches three blocks and jumps over the rest of the old branch |
| `Livelock.StuckReachable` | src/controller.cpp:402-451 | for every block range up to 2^31 - 4 there are a base chain without deep reorgs and a run from an empty database after which the chainstate is in sync, and polling from some accepted block never reaches the tip |
| `Controller.UntaggedMore` | src/controller.cpp:620-848 | requests that are served in between leave the untagged message stream as it is |
| `Controller.Outbox.SendBlocks` | src/controller.cpp:683-684 | one message per block, in order, with the request's token |
| `Controller.RunData.PushGivenBlocks` | src/controller.cpp:765-792 | the loop over given attaches agrees with `Notify.PushGiven` in result and messages |
| `Controller.RunData.PushQueriedBlocks` | src/controller.cpp:794-847 | agrees with `Notify.PushQueried` in result and messages |
| `Controller.RunData.PushOn` | src/controller.cpp:713-792 | agrees with `Notify.PushFromFork` in result and messages |
| `Controller.RunData.PushZmqBlocks` | src/controller.cpp:620-848 | agrees with `Notify.PushZmqBlocks` in result and messages, in every branch |
| `Controller.RunData.TipUpdatedFrom` | src/controller.cpp:586-618 | agrees with `SyncSpec.TipUpdatedFrom` in messages and pruned table, and leaves the table alone if the pending gate throws |
| `Controller.RunData.GameSendUpdates` | src/controller.cpp:402-451 | a fresh token, and a response that reports the block reached and the step counts of the messages sent under that token |
| `SyncTask.Sync.ImportNewTip` | src/sync.cpp:128-150 | agrees with `SyncSpec.ImportNewTip` for every answer: an exception, no block at the height, an import, and a failed `CHECK` |
| `SyncTask.Sync.AttachBlocks` | src/sync.cpp:195-232 | agrees with `SyncSpec.AttachBlocks` for a range of any chain |
| `SyncTask.Sync.SearchBack` | src/sync.cpp:195-215 | agrees with `SyncSpec.SearchBack` |
| `SyncTask.Sync.Extend` | src/sync.cpp:234-250 | agrees with `SyncSpec.Extend` |
| `SyncTask.Sync.Continue` | src/sync.cpp:252-262 | agrees with `SyncSpec.Continue` for every answer |
| `SyncTask.Sync.Attempt` | src/sync.cpp:179-262 | what the first block of a range decides, for a range of any chain, agrees with the state machine |
| `SyncTask.Sync.UpdateStep` | src/sync.cpp:152-263 | agrees with `SyncSpec.UpdateStep` for all answers in every steady or empty chainstate, also where that aborts or a callback throws; with a range that contains main[L] it never dies and keeps the sync invariant |
| `UpdateBatches.Database.Run` | src/chainstate.cpp:566-588 | a batch leaves the open savepoints as they were, and the table as its surviving writes make it |
| `UpdateBatches.Database.RunAll` | src/chainstate.cpp:566-588 | for any nesting of batches on one savepoint name, the table is what exactly the writes make of it whose enclosing batches all committed |
| `UpdateBatches.NothingSurvives` | src/chainstate.cpp:572-580 | nothing in a batch that was not committed survives, however deep |
| `UpdateBatches.BatchLaws` | src/chainstate.cpp:566-588 | a write takes effect before what follows it, a committed batch is as if its body stood in its place, and a reverted one as if nothing did |
| `UpdateBatches.AllSurvive` | src/chainstate.cpp:566-588 | if all batches commit, every write survives, in program order |
| `BlockCache.Pigeonhole` | src/cache/mysql.cpp:133-166 | as many ordered, duplicate-free blocks as the range is long are the full range |
| `BlockCache.RangeExact` | src/blockcache.cpp:43-71 | for any proper storage, the answer is that of the base chain; that is asked, once, exactly if the range is too close to the tip or not stored in full; what is stored then is exactly the answer to a range that is deep enough; the cache invariant is kept |
| `BlockCache.RunExact` | src/blockcache.cpp:36-71 | so over every run of calls, if blocks at least `minDepth` below an observed tip never change |
| `BlockCache.InMemoryBlockStorage.Store` | src/blockcache.cpp:107-112 | replaces nothing, and stores for each missing height the first block that has it, and nothing else |
| `BlockCache.InMemoryBlockStorage.GetRange` | src/blockcache.cpp:114-137 | a proper storage reply: all stored blocks of the range in order if all heights are stored, and otherwise none; for a count of zero one block if the start height is stored |
| `BlockCache.BlockCacheChain.QueryTipHeight` | src/blockcache.cpp:36-41 | the tip height of the base chain, remembered |
| `BlockCache.BlockCacheChain.QueryBlockRange` | src/blockcache.cpp:43-71 | the answer of the base chain, which is asked if and only if the range is too close to the tip or not stored in full; a range that is deep enough is stored afterwards, and nothing else |
| `EthChain.ExtractExact` | eth/ethchain.cpp:397-453 | the extractor accepts exactly the logs of its block, contract and event in strictly increasing (transaction, log) order, and yields their moves in order |
| `EthChain.AddMovesOneByOne` | eth/ethchain.cpp:455-497 | the first block with an error or a bad log decides, otherwise each block gets its own moves |
| `EthChain.AddMovesFromHeightRange` | eth/ethchain.cpp:499-533 | distributing one list by block hash gives each block what its extractor makes of its own logs, or aborts if one is foreign or bad |
| `EthChain.FastRefinesSlow` | eth/ethchain.cpp:455-533 | both ways agree, moves and aborts, whenever the range answer filtered by a block's hash is that block's answer (the `blockHash` filter of the Specification section of EIP-234), except that a log of another block in the range answer aborts the fast way |
| `EthChain.CollectSound` | eth/ethchain.cpp:335-374 | for arbitrary answers, collected blocks are linked and have the heights from start on |
| `EthChain.CollectComplete` | eth/ethchain.cpp:335-374 | linked answers with these heights are always collected |
| `EthChain.AttemptedSound` | eth/ethchain.cpp:303-389 | for arbitrary answers, returned blocks have heights start to min(end, tip), are linked by hash, and have their moves in strictly increasing log order |
| `EthOutcomes.CollectOutcome` | eth/ethchain.cpp:335-374 | the first answer that is not a linked block decides: an error or a wrong height aborts, a missing or unlinked block is a race |
| `EthOutcomes.OneByOneOutcome` | eth/ethchain.cpp:455-497 | the first block whose logs are an error (retry) or bad (abort) decides; without one, the moves of each block are those of its own logs, one for one |
| `EthOutcomes.FromRangeOutcome` | eth/ethchain.cpp:499-533 | the logs of a range are accepted if and only if each is of one of the blocks and those of each block are in order; the moves of each block are then exactly those of the logs with its hash, in order |
| `EthOutcomes.AttemptOutcome` | eth/ethchain.cpp:303-389 | exactly when an attempt yields blocks, is repeated or aborts, in terms of the answers; it takes the fast way if and only if the last height plus the given depth is below the tip, and the returned moves are those of the logs of the way taken |
| `EthOutcomes.FirstSettledOutcome` | eth/ethchain.cpp:553-562 | the result is that of the first attempt that is not a race |
| `EthChain.TryBlockRange` | eth/ethchain.cpp:303-389 | blocks, retry or abort exactly as `EthChain.Attempted` says |
| `EthChain.GetBlockRange` | eth/ethchain.cpp:542-563 | the outcome of the first attempt that sees no race; then linked, at most `count` blocks from start, moves in order |
| `CoreChain.WalkBack` | xayacore/corechain.cpp:501-515 | the backward walk terminates, no `CHECK` fails, and it yields the linked blocks from start to the end hash, each exactly as the node serves it |
| `CoreChain.GetBlockRange` | xayacore/corechain.cpp:460-516 | asks again exactly while there is no block at the end height; then the linked blocks from start to min(end, tip), up to the block the node named, each exactly as the node serves it |
| `CoreChain.RangeOfSomeChain` | src/sync.cpp:184-193 | every linked range of authentic blocks, from either connector, is the answer of some snapshot: the contract that Sync relies on |
| `PendingGate.HandleInv` | src/pending.cpp:12-75 | with sends that may throw: equal tips mean an empty queue unless the latest flush was cut short, every send happens while the tips agree and with a batch from after the latest tip change, and every batch is sent, queued or dropped; a `CHECK` fails if and only if a tip is empty, or pending moves arrive at a gate that was cut short |
| `PendingGate.TraceInv` | src/pending.cpp:12-75 | so over all traces of the three events, with the exact place of the first failed `CHECK` |
| `PendingGate.CutIff` | src/pending.cpp:56-75 | the gate is cut short if and only if the very last event was a flush that threw |
| `PendingGate.TornIff` | src/pending.cpp:56-75 | the history flag for a flush that was cut short after a send is set if and only if the trace has such an event |
| `PendingGate.OnceIff` | src/pending.cpp:56-75 | batches are sent once, in order of receipt, and each is exactly one of sent, queued and dropped, if and only if no event of the trace is a flush that throws after it has sent a batch |
| `PendingGate.SentTwice` | src/pending.cpp:56-75 | a trace in which a batch is sent twice |
| `PendingGate.CutFlushAborts` | src/pending.cpp:27-75 | a trace without empty tips that aborts: a flush that throws, and then pending moves |
| `PendingFate.ReceiptOutcome` | src/pending.cpp:27-54 | over every trace, in terms of the latest tips that were notified: a batch is sent on receipt if and only if they agree, are not empty and the socket takes it; it is dropped on receipt if and only if there is no chainstate tip, or the tips agree and the send throws; otherwise it is queued |
| `PendingFate.TipOutcome` | src/pending.cpp:12-25 | a new tip of the base chain drops exactly the queue, and sends nothing |
| `PendingFate.FlushOutcome` | src/pending.cpp:56-75 | a chainstate tip sends batches if and only if it agrees with the base chain: the queue in order, as far as the socket takes it; the queue is emptied if all was taken and otherwise kept as a whole |
| `PendingFate.QueuedFate` | src/pending.cpp:12-75 | a queued batch keeps its place until the next new base tip, which drops it, or the next chainstate tip that agrees, which sends it if the socket takes it and all before it |
| `PendingGate.PendingManager.NotifyTip` | src/pending.cpp:12-25 | drops the queue and takes the tip, keeping the invariant |
| `PendingGate.PendingManager.NotifyPending` | src/pending.cpp:27-54 | drops, sends, queues, throws or dies exactly as `PendingGate.Handle` says, keeping the invariant |
| `PendingGate.PendingManager.NotifyChainstate` | src/pending.cpp:56-75 | sends the queue in order once the tips agree; if a send throws, the queue is kept |
| `Publisher.DepthIsMaxSuffix` | src/zmqpub.cpp:243-285 | the tracking depth is the largest surplus of tracks over untracks in any suffix of the history |
| `Publisher.TrackedIff` | src/zmqpub.cpp:243-285 | a game is tracked if and only if some suffix of its history has more tracks than untracks |
| `Publisher.Encode` | src/zmqpub.cpp:294-301 | the four bytes of the sequence number, least significant first |
| `Publisher.Route` | src/zmqpub.cpp:347-387 | the single pass gives every tracked game exactly its own moves and admin commands, in the order of the block |
| `Publisher.RoutePending` | src/zmqpub.cpp:431-458 | the same for a pending transaction; aborts if and only if there are no moves or two neighbours have different txids, the first of them not empty |
| `Publisher.ZmqPub.TrackGame` | src/zmqpub.cpp:243-262 | keeps every count equal to the depth of that game's history |
| `Publisher.ZmqPub.UntrackGame` | src/zmqpub.cpp:264-285 | likewise; an untracked game stays as it is |
| `Publisher.ZmqPub.SendMessage` | src/zmqpub.cpp:287-327 | every delivered message carries the number of earlier deliveries of its topic modulo 2^32; a refused one uses up no number |
| `Publisher.ZmqPub.SendBlock` | src/zmqpub.cpp:329-408 | one message per tracked game, in order of the games, with this block and token and exactly the moves and admin commands filtered for the game; all games are reached unless the socket refuses one |
| `Publisher.ZmqPub.SendPendingMoves` | src/zmqpub.cpp:424-464 | exactly the tracked games with moves are told, with exactly their moves |
| `PublisherLaws.MovesForExact` | src/zmqpub.cpp:170-221 | a game's moves of a block are exactly the moves of players that address it, in order, each with txid, name, what it says for this game, and the burn for this game or zero |
| `PublisherLaws.AdminForExact` | src/zmqpub.cpp:170-202 | a game's admin commands are exactly those under the game's own name, in order, with txid, command and burn |
| `PublisherLaws.TopicNumbers` | src/zmqpub.cpp:287-327 | the delivered messages of a topic carry the numbers 0, 1, 2, ... modulo 2^32 in four little-endian bytes |
| `PublisherLaws.HistoryExact` | src/zmqpub.cpp:243-285 | the history that decides about a game is that of the calls for this game alone |
| `Mempool.StrictWeakOrder` | eth/pending.cpp:199-213 | the comparator is a strict weak order whose ties are equal sender and nonce |
| `Mempool.LessIff` | eth/pending.cpp:208-209 | senders are in the order of dictionaries: a proper prefix first, else by the first character that differs |
| `Mempool.StillPendingExact` | eth/pending.cpp:260-296 | the transactions that are kept are exactly those answered as pending, in the order of the answers |
| `Mempool.PendingMempool.Snapshot` | eth/pending.cpp:223-241 | every transaction of the pool, once |
| `Mempool.PendingMempool.Finish` | eth/pending.cpp:258-306 | removes exactly those seen as unknown or confirmed; the result has exactly the transactions answered as pending, once each if the snapshot is free of duplicates, by sender and with rising nonces within a sender; fails if and only if an answer is an error or of a wrong hash |
| `Mempool.FlightBegan` | eth/pending.cpp:217-306 | the snapshot of a call in flight is of the pool when it began |
| `Mempool.LeavesOnlyIfGone` | eth/pending.cpp:182-306 | under any interleaving of `Add` and several calls in flight, a transaction leaves the pool only if a call whose snapshot had it saw it unknown or confirmed |

## Left out

- SQLite, MySQL and protobuf mechanics: the table is a map, block data is opaque and stored without loss.
- JSON parsing and formatting, ABI, Keccak and ECDSA code: parsed moves are abstract values; the metadata and burn data of a move are copied, not computed.
- ZMQ, WebSocket and HTTP transport, threads and waiting: only the order of steps is modelled, with one lock section per step.
- Simulation of pending transactions with state overlays, which depends on an external EVM.
- `verifymessage`, chain and version queries, RPC headers, hex prefixes, command-line parsing: thin wrappers.
- Running without callbacks (`cb == nullptr`): the callback of the sync task is always set, as the controller does.
- Exceptions inside `PushZmqBlocks` are not part of the runs: ZMQ errors and base-chain errors there are caught and cut the notification of a tip update short; the theorem about the message stream is about runs in which they do not occur. Exceptions of the pending gate are part of the runs.
- The call of `ChainstateTipChanged` from `TipUpdatedFrom`: the pending gate is proved for any order of its three events instead, with sends that throw at any point; in the runs of the sync task, whether it throws is arbitrary. A batch counts as sent when all its games were told; that some of them may have been told before an exception is not modelled, nor are batches without moves or with mixed txids, on which the publisher aborts.
- The order of log severities, and log output altogether.
- 64-bit wrap-around of heights, except where the source computes with it on purpose or checks for it; heights are natural numbers.
- The savepoint around the attach loop is not woven into class `Chainstate`; nested batches are proved on their own, for any table and any writes.
- `std::sort` is modelled by insertion sort; only its result is claimed, as a sorted permutation.
- Retry loops of the connectors are given the answers they will see as a list; if all of them ask for a retry the outcome is `Retry` or `StillTrying`, so nothing is claimed about a node that never settles.
- CoreChain.GetBlockRange: requires that the node serves the blocks it names together with their ancestry, because `getblock` fails otherwise and ends the call with an exception.
- ChainstateDb.Chainstate.SetTip: requires the part of the invariant that its queries rely on, because on an arbitrary table the branch numbers mean nothing; `ChainRuns.RunInvariant` proves that it always holds.
- SyncTask.Sync.AttachBlocks: requires a steady or empty chainstate, like the next.
- SyncTask.Sync.UpdateStep: requires a steady or empty chainstate, because after a reorg below main[L] that goes unnoticed the main chain of a later step need not be linked; what happens in the step of such a reorg itself is covered, and with sanity checks that no exception skips no such state is ever reached (`CheckedRuns.RunKeeps`).
- Livelock.StuckReachable: covers block ranges up to 2^31 - 4, because above that the heights of its run exceed the 32 bits that catch-up is proved for.
