# Tina: verified models of the chain core

Tina is a blockchain node in Go. This project models the parts of it that hold several structures in step under a long
list of operations, and proves what those parts are for. Everything is Dafny 4.11; `dafny verify dfyconfig.toml` checks
the whole project.

| part | files | what is proved |
|---|---|---|
| Binary Merkle tree hasher | `BmtReference`, `BmtShape`, `BmtMachine`, `BmtProof`, `BmtSteps`, `BmtClimb`, `BmtTheorems`, `BmtOnce`, `BmtHasher` | under every interleaving of single field accesses the concurrent hasher returns the recursive reference hash, each balanced inner node is hashed exactly once and by its second arrival, every schedule ends, and the tree goes back to the pool clean |
| Header chain, reorganisations, fork walks | `Options`, `Chain`, `ForkWalk`, `HeaderChain`, `Reorg`, `ReorgRuns` | over every run of block writes the index up to the head and the transaction lookup index are exact for the head's chain and the head is heaviest; over every run of header writes and rewinds the header index is exact while the node runs; the walks find the highest common ancestor |
| Event feed | `Feed` | every subscription gets a sent value exactly once, or was removed first, under every schedule |
| Transaction lists | `Heap`, `TxMap`, `TxSortedMap`, `TxListOps`, `PricedList` | heap index, sorted cache, cost caps and lazy price heap agree with a plain map |
| Transaction pool | `PoolState`, `PoolMoves`, `PoolReset`, `PoolRuns`, `PoolFair`, `PoolFacts`, `TxValidation`, `PoolAdds`, `PoolStall`, `PoolGap`, `PoolDrain`, `PoolRoom`, `TxPool` | both pool invariants over every run, sender by sender; the pending limit cuts the longest lanes to one level and no further than needed; the queue limit; that between two calls nothing is queued that could follow its sender's pending ones; when the pool outgrows its limit; and for every sender with nothing reinjected exactly when a new head leaves it in order |
| Light client | `WeightedSelect`, `Distributor`, `EntryQueue` | the weight tree draws like a flat list, and a fallen weight keeps its share of the draws; requests keep creation order; the recency queue evicts the least recent |
| Chain indexer | `ChainTruncation`, `ChainIndexer` | under every interleaving in which all overlaps of two truncations are harmless the stored section heads lie on one chain, and exactly which overlaps are harmless; on every run no section is begun before it is confirmed |
| Gas and wallet paths | `Gas`, `DerivationPath` | gas conservation per transaction and per block; path printing and parsing are inverse |

How the models are built. Code that changes objects step by step is a class whose methods carry the loops of the source;
each method is proved equal to a function on values, and the properties are lemmas about those functions. Code that runs
concurrently (the hasher, the feed, the indexer) is a state machine whose events are the atomic steps of the goroutines (in
the hasher one read or write of one field, in the indexer's unlocked loop one statement), and the theorems quantify over
every sequence of enabled events. Hashes are injective: a block stands for its own hash, and
so does a transaction. The database is a set of maps. Randomness, clocks, the virtual machine, and the order in which Go
visits a map are parameters or arbitrary choices.

## What the code does not do

Each of these is stated as a lemma with the condition, and with a concrete case where it fails.

- The indexer truncates its sections without the lock when a backend reset fails. Started while a reorganisation truncates
  them under the lock, or the other way round, the two loops interleave; some schedule then ends with stored heads that do
  not match the count, exactly when the reorganisation keeps a section, or heads are left and two sections are stored, or
  one is and a loop is about to remove a head. Overlaps that are not of this kind do no harm in any number. A concrete run
  ends with no section counted and a head left (`ChainTruncation.MeetingIff`, `ChainIndexer.HarmlessRun`,
  `ChainIndexer.EveryOverlap`, `ChainIndexer.TruncationsCanTear`).
- A section the worker has read is stored although a reorganisation has taken one of its headers away, exactly when the
  common ancestor lies in that section and is not its last header (`ChainIndexer.StaleSectionIff`,
  `ChainIndexer.StaleSectionCanStay`).
- The node toggle of the hasher is a 32-bit counter: it pairs arrivals exactly while it is not negative, so a node stops
  working after 2^31 toggles (`BmtMachine.TogglePairsIff`, `BmtTheorems.ReleasedCleanIff`, `BmtOnce.ToggleWearsOut`).
- A heavier but lower block becomes the head without clearing the index above it: the index ends at the head exactly when
  the new head is at least as high, and over a run exactly when no earlier head was higher (`Reorg.WonExact`,
  `ReorgRuns.RunExactIff`, `ReorgRuns.LowerHeadLeavesEntry`).
- After a reorganisation by several blocks the header head and the fast head stand on the lowest new block; over every run
  of blocks with positive difficulty they agree with the block head exactly when the new branch is one block, also where
  the index holds stale entries above the head (`ReorgRuns.HeadsInRun`, `ReorgRuns.HeadsCanLag`).
- Rewinding the header chain can leave side headers whose parent is gone; it does so exactly when one was built on a removed
  header (`HeaderChain.RewoundClosedIff`, `HeaderChain.RewindCanOrphan`). A header written on such an orphan that outweighs
  the head makes the rewrite loop dereference a missing header, exactly then
  (`HeaderChain.HeaderChain.WriteHeader`, `HeaderChain.RewindThenWriteCrashes`).
- Removing the first of several pending transactions loses the others: they stay known to the pool and are in no lane. This
  happens exactly then, and no other move does it (`PoolState.RemoveLosesIff`, `PoolRuns.ApplyLosesIff`,
  `PoolState.RemoveCanLose`).
- A new head checks only the first nonce of a pending lane; the lane is left without gaps exactly when it had none before a
  payable stretch, and a partial reinjection makes one (`PoolReset.DemoteIntervalIff`, `PoolGap.ReinjectionCanLeaveGap`).
- A transaction dropped from the pool while a new head is taken up lowers its sender's next nonce below the state's, and
  the sender's queue stalls, although nothing of that sender was reinjected. It happens exactly to the senders of whom the
  reinjection dropped a pending nonce below the new state's, so to nobody whose pending nonces the new state has not passed
  (`PoolStall.ResetTightIff`, `PoolStall.UnpassedStaysTight`, `PoolGap.FullPoolCanStall`).
- A pool within its limit outgrows it exactly when it is full of local transactions only and accepts one more
  (`PoolRoom.OverflowsIff`, `PoolRoom.LocalsCanOverflow`). Room is made before a bid for a used nonce is judged, so a refused transaction can cost the pool
  another one, exactly when the pool is full and knows a remote transaction (`PoolRoom.RefusedKeepsIff`,
  `PoolRoom.RefusedCanDrop`).
- Transactions of the kinds that use no gas are admitted without a look at the sender's balance, and dropped by the
  promotion that follows if it is too small (`TxValidation.AdmittedPayableIff`, `TxValidation.UnpayableVanishes`).
- A transaction that fails after buying gas gives nothing back to the block's pool (`Gas.FailureKeepsPoolIff`,
  `Gas.FailureCanEmptyPool`).
- The empty path is printed as `m`, which the parser refuses (`DerivationPath.RoundTripIff`).

## Model

| member | source | states |
|---|---|---|
| BmtReference.Depth | chain/bmt/bmt.go:521-526 | the counting loop of the tree depth computes `DepthOf`, which `DepthIsLeast` and `DepthUnique` pin down |
| BmtReference.DepthIsLeast | chain/bmt/bmt.go:521-526 | the depth is the least one whose data nodes hold the given number of segments, two to a node |
| BmtReference.DepthUnique | chain/bmt/bmt.go:521-526 | no other depth has that property |
| BmtReference.NewRefHasher | chain/bmt/bmt_r.go:39-55 | the capacity is the segment size times the segment count, the section two segments, and the doubling loop ends at the largest power of two of segments that still has to be cut: two segments for at most two, otherwise less than the capacity and at least half of it |
| BmtReference.RefHashSplit | chain/bmt/bmt_r.go:67-85 | the reference hash of a chunk longer than half its span is the hash of the left half's reference hash and the right rest, itself hashed only if longer than a segment |
| BmtReference.RefHashStable | chain/bmt/bmt_r.go:67-85 | the span argument does not matter once it covers the chunk |
| BmtShape.SummitValue | chain/bmt/bmt_r.go:59-85 | the value the tree's joins compute for the whole chunk at its summit is the reference hash of the chunk, for every covering span |
| BmtMachine.TogglePairsIff | chain/bmt/bmt.go:509-511 | on an even 32-bit counter two toggles answer first, then second, if and only if the counter is not negative |
| BmtTheorems.StepKeeps | chain/bmt/bmt.go:293-550 | every single read or write of a node's flag, toggle, slot or root mark, by the caller or by a goroutine, keeps the invariant that ties slots, toggles, flags and running goroutines to the values still owed |
| BmtTheorems.RunKeeps | chain/bmt/bmt.go:293-550 | so does every interleaving, from any tree with even, nonnegative toggles |
| BmtTheorems.ResultIsSummit | chain/bmt/bmt.go:442-494 | under every interleaving at most one value is ever sent, and it is the value of the chunk's summit |
| BmtTheorems.ReleasedHasResult | chain/bmt/bmt.go:293-319 | Sum never releases the tree without having received the result |
| BmtTheorems.ReleasedTree | chain/bmt/bmt.go:425-440 | when Sum has returned, all goroutines have finished, every two-sided node was toggled exactly twice, no flag is left and only the top is a root |
| BmtOnce.HashedOnce | chain/bmt/bmt.go:462-494 | under every interleaving no balanced inner node is hashed twice, and when Sum has returned each was hashed exactly once |
| BmtOnce.HashedBySecond | chain/bmt/bmt.go:462-494 | whoever hashes a balanced inner node has toggled it before and was told that it came second |
| BmtOnce.SumCanReturn | chain/bmt/bmt.go:293-319 | from every state that any interleaving reaches some continuation of enabled steps lets Sum return |
| BmtOnce.ToggleWearsOut | chain/bmt/bmt.go:509-511 | a clean tree whose top was toggled 2^31-2 times and four segments after which the released tree is not clean |
| BmtTheorems.ReleasedCleanIff | chain/bmt/bmt.go:425-440 | the released tree is clean again if and only if no joined node reached the end of its 32-bit counter |
| BmtTheorems.SomeStep | chain/bmt/bmt.go:293-494 | until Sum returns some step is always enabled: no interleaving deadlocks |
| BmtTheorems.SchedulesEnd | chain/bmt/bmt.go:293-494 | every schedule of enabled steps is bounded by a cost of the chunk |
| BmtHasher.NewTree | chain/bmt/bmt.go:253-276 | the level-by-level construction yields a clean tree of the given depth |
| BmtHasher.Hasher.Write | chain/bmt/bmt.go:334-373 | one Write of any chunk, of which as many first bytes count as the segments hold together, hands out every segment pair but the last, in order and with the right contents, and keeps the last open |
| BmtHasher.SendPairs | chain/bmt/bmt.go:346-370 | the loop of Write cuts the chunk at exact pair boundaries and never leaves an empty last pair |
| BmtHasher.ReleaseTree | chain/bmt/bmt.go:425-440 | the climb clears exactly the flags on the path of the last data node |
| BmtHasher.SumIsReference | chain/bmt/bmt.go:293-319 | for every segment count, chunk and interleaving on a clean tree, the only value Sum can receive is the reference hash of the truncated chunk |
| BmtHasher.SumReturnsReference | chain/bmt/bmt_r.go:59-65 | and when Sum has returned, it did receive it: the reference hash of the whole chunk if it is no longer than segment size times segment count, and of that many first bytes otherwise |
| ForkWalk.FindCommonAncestor | chain/core/database_util.go:629-653 | the two-sided descent ends and returns the highest common ancestor, or nothing if there is none, on every store |
| ForkWalk.MeetIsFork | chain/core/blockchain.go:1153-1191 | the descent as a function returns the highest common ancestor, or nothing if there is none |
| ForkWalk.ForkPointUnique | chain/core/database_util.go:629-653 | the highest common ancestor is unique |
| ForkWalk.RootedFork | chain/core/database_util.go:629-653 | two blocks that descend from one genesis have one |
| ForkWalk.BranchTxsMembers | chain/core/tx_pool.go:336-366 | the transactions collected down a branch are exactly those of its blocks above the fork |
| ForkWalk.TxDifference | chain/core/types/transaction.go:745-760 | keeps exactly the transactions of the first list that the second does not hold |
| ForkWalk.ReorgWalk | chain/core/tx_pool.go:329-370 | the pool's walk finds the same fork point as the chain's and gives up exactly when there is none |
| ForkWalk.Reinjected | chain/core/tx_pool.go:317-372 | for heads at most 64 apart in height exactly the transactions on the old branch only are reinjected; for direct children and deeper moves none |
| HeaderChain.WrittenKeeps | chain/core/headerchain.go:137-201 | one header, whatever the tie-break coin and whether or not it is rooted, keeps the index exactly the head's chain and the difficulties summed to genesis; it keeps every header rooted and the head heaviest if they were |
| HeaderChain.HeadChangesIff | chain/core/headerchain.go:137-193 | a header of known parent is stored with the difficulty of its chain and becomes the head if and only if it is heavier, or as heavy and chosen by the coin; any other changes nothing |
| HeaderChain.EveryRun | chain/core/headerchain.go:137-445 | in every run of header writes and rewinds, as long as the node runs, the index is exactly the head's chain, stored down to genesis |
| HeaderChain.RunWithoutRewind | chain/core/headerchain.go:137-201 | without a rewind the node never runs off its headers, every header stays rooted and the head heaviest |
| HeaderChain.RewindThenWriteCrashes | chain/core/headerchain.go:171-186 | a rewind and a header after which it does |
| HeaderChain.GenesisValid | chain/core/headerchain.go:137-201 | the chain that holds only genesis has these properties |
| HeaderChain.RewoundKeeps | chain/core/headerchain.go:412-445 | rewinding leaves exactly the canonical prefix up to the lower of the old and the wanted height |
| HeaderChain.RewoundIff | chain/core/headerchain.go:412-445 | exactly the ancestors of the head above the wanted height are removed |
| HeaderChain.RewoundClosedIff | chain/core/headerchain.go:412-445 | every remaining header still reaches genesis if and only if none was built on a removed one |
| HeaderChain.RewindCanOrphan | chain/core/headerchain.go:412-445 | a chain with a side branch on which rewinding leaves a header without its parent |
| HeaderChain.HeaderChain.GetTd | chain/core/headerchain.go:320-332 | the cache in front of the database answers as the database would |
| HeaderChain.HeaderChain.GetHeader | chain/core/headerchain.go:352-364 | likewise for headers |
| HeaderChain.HeaderChain.WriteHeader | chain/core/headerchain.go:137-201 | the two rewrite loops end and leave exactly the state the model step describes, with the matching status; a missing header is dereferenced if and only if the header wins and its stored ancestors do not reach genesis, and then the index is torn exactly down to it |
| HeaderChain.HeaderChain.SetHead | chain/core/headerchain.go:412-445 | the deletion loops end and leave exactly the rewound state |
| Reorg.ReorgLookup | chain/core/blockchain.go:1206-1222 | merging the new branch's entries and deleting the difference of the two branches leaves a lookup index that is exact for the new chain |
| Reorg.WonIndexed | chain/core/blockchain.go:839-873 | when a block of any height becomes canonical every index entry up to its height is its own ancestor, the lookup index is exact, and the entries above stay as they were |
| Reorg.WonExact | chain/core/blockchain.go:839-873 | from an exact state the index ends at the new head if and only if that is at least as high as the old one |
| ReorgRuns.WriteKeeps | chain/core/blockchain.go:790-876 | every write, winning, losing, without a known parent or without a common ancestor, keeps both indexes exact for the head's chain, the difficulties summed and the head a heaviest stored block |
| ReorgRuns.TurnedAwayIff | chain/core/blockchain.go:790-857 | a write is turned away if and only if the parent's difficulty is unknown, or the block is preferred and its chain does not meet the head's |
| ReorgRuns.HeadChangesIff | chain/core/blockchain.go:836-876 | any other block is stored with the difficulty of its chain and becomes the head if and only if it is heavier than the head, or as heavy and lower, or as heavy and as high and chosen by the coin; if it does not, no index entry changes |
| ReorgRuns.EveryRun | chain/core/blockchain.go:790-876 | so does every run of writes on whose chains no transaction repeats |
| ReorgRuns.GenesisSound | chain/core/blockchain.go:790-876 | the chain that holds only genesis has these properties |
| ReorgRuns.RunExactIff | chain/core/blockchain.go:790-876 | after any run from an exact state the index ends at the head if and only if no earlier head was higher |
| Reorg.HeadsAfterWin | chain/core/blockchain.go:459-481 | unless the index already holds the new branch's own lowest block, the header and fast heads end on that block and equal the block head if and only if the branch is one block |
| ReorgRuns.HeadsAfterWrite | chain/core/blockchain.go:459-481 | from every sound state with positive difficulties, whatever the index holds above the head, a winning block other than the head puts the header and fast heads on the lowest new block, and they equal the block head if and only if the new branch is one block |
| ReorgRuns.HeadsAfterRewrite | chain/core/blockchain.go:459-481 | writing the head once more leaves the header and fast heads where they are |
| ReorgRuns.HeadsInRun | chain/core/blockchain.go:790-876 | so it is at every winning write of every run, however often the head fell |
| ReorgRuns.LowerHeadLeavesEntry | chain/core/blockchain.go:839-873 | a concrete heavier, lower block that leaves an entry above itself |
| ReorgRuns.HeadsCanLag | chain/core/blockchain.go:459-481 | a concrete reorganisation by two blocks that leaves the header and fast heads on the lower one |
| Reorg.SplitChains | chain/core/blockchain.go:1153-1191 | the reduction loops find the fork point, the new branch and the old branch's transactions, and fail exactly when there is no fork point |
| Reorg.BlockChain.InsertHead | chain/core/blockchain.go:459-481 | writes the index entry and the head, and moves the header and fast heads exactly when the index held another block at that height |
| Reorg.BlockChain.WriteTxLookupEntries | chain/core/database_util.go:485-502 | adds one entry per transaction with its position |
| Reorg.BlockChain.DeleteTxLookupEntries | chain/core/database_util.go:552-554 | removes exactly the given entries |
| Reorg.BlockChain.InsertChain | chain/core/blockchain.go:1206-1214 | inserts the new branch block by block and collects its transactions |
| Reorg.BlockChain.ReorgTo | chain/core/blockchain.go:1129-1228 | changes nothing exactly when the chains do not meet, and otherwise moves the index to the new branch |
| Reorg.BlockChain.WriteBlockAndState | chain/core/blockchain.go:790-876 | decides by total difficulty, height and coin, and leaves exactly the described index state in each of its outcomes |
| Feed.FindCase | chain/event/feed.go:209-216 | the scan returns the first position of the channel or minus one |
| Feed.DeleteMultiset | chain/event/feed.go:219-221 | deleting a case removes exactly one occurrence and keeps the others |
| Feed.SwapPrefix | chain/event/feed.go:224-228 | deactivating a case swaps it behind the undelivered prefix and loses nothing |
| Feed.StepKeeps | chain/event/feed.go:104-186 | every event of a subscriber, a cancelling goroutine or the sender keeps the undelivered cases a prefix, slot 0 the removal case and the books balanced |
| Feed.EveryRun | chain/event/feed.go:73-186 | so does every schedule from a fresh feed |
| Feed.CancelFindsCase | chain/event/feed.go:104-125 | a cancelling goroutine that has to delete always finds its channel outside slot 0: no deletion at minus one |
| Feed.SendSettles | chain/event/feed.go:128-186 | when a send ends every subscription present at its start was delivered to or removed, the count is the number of deliveries, and the cases are the start's minus the removed |
| Feed.ExactlyOnce | chain/event/feed.go:128-186 | a channel subscribed once has one delivery or one removal before it, never both and never neither |
| Feed.SendProgress | chain/event/feed.go:128-186 | each step of the sender lowers a measure that no other goroutine raises: a send ends once its channels are ready |
| Feed.NobodyHeldUp | chain/event/feed.go:104-186 | a send is held up only by a channel that is not ready and a cancellation only by the lock: every undelivered case can be tried and selected, every removal taken, every live subscription cancelled |
| Feed.ReadyDelivered | chain/event/feed.go:152-182 | a channel that takes the value is delivered to and counted, one that is not ready is passed over |
| Feed.Feed.Subscribe | chain/event/feed.go:73-93 | a subscription waits in the inbox |
| Feed.Feed.Remove | chain/event/feed.go:104-125 | takes the channel out of the inbox or the cases and keeps everything else |
| Feed.Feed.TryAll | chain/event/feed.go:152-162 | the nonblocking pass delivers to each ready channel once and keeps the books |
| Feed.Feed.Send | chain/event/feed.go:128-186 | for any readiness and any removals met on the way, each starting subscription is delivered to once or dropped, and the result counts the deliveries |
| TxSortedMap.SortedMap.Put | chain/core/tx_list.go:73-79 | inserts and keeps index and cache in step with the map |
| TxSortedMap.SortedMap.Forward | chain/core/tx_list.go:84-98 | removes exactly the nonces below the threshold and returns them in order |
| TxSortedMap.SortedMap.Filter | chain/core/tx_list.go:102-123 | removes exactly the matching transactions and rebuilds the index |
| TxSortedMap.SortedMap.Cap | chain/core/tx_list.go:127-148 | keeps exactly the lowest nonces and returns the others from the top down |
| TxSortedMap.SortedMap.Remove | chain/core/tx_list.go:152-169 | removes one nonce and says whether it was there |
| TxSortedMap.SortedMap.Ready | chain/core/tx_list.go:178-196 | hands out exactly the run of consecutive nonces from the lowest, if that is not past the start |
| TxSortedMap.SortedMap.Flatten | chain/core/tx_list.go:224-237 | the cache, built or kept, is the nonce-sorted contents |
| TxListOps.List.Add | chain/core/tx_list.go:272-298 | inserts if and only if the nonce is free or the new price is above the old one and reaches it plus the bump in percent, up to the rounding of one unit, and raises the caps |
| TxListOps.OutbidsIff | chain/core/tx_list.go:276-287 | the percentage law as an inequality of the two prices |
| TxListOps.List.Filter | chain/core/tx_list.go:316-340 | the cap short cut and the full scan agree on what is kept, removed and invalidated |
| TxListOps.List.Remove | chain/core/tx_list.go:351-362 | in strict mode everything above a removed nonce is invalidated |
| TxListOps.FilterPartition | chain/core/tx_list.go:316-340 | kept, unpayable and invalidated partition the list, and all kept ones are payable |
| TxListOps.StaysGapless | chain/core/tx_list.go:303-362 | a gapless strict list stays gapless under Forward, Cap, Remove and Filter |
| TxListOps.CapsDecide | chain/core/tx_list.go:316-325 | below the caps a full scan would find nothing |
| PricedList.Priced.Put | chain/core/tx_list.go:439-441 | the heap gains exactly the transaction |
| PricedList.Priced.Removed | chain/core/tx_list.go:446-460 | counts stale entries, and rebuilds the heap from exactly the live ones if and only if more than a quarter are stale; nothing live is lost |
| PricedList.Priced.Cap | chain/core/tx_list.go:464-491 | if the heap covers the live transactions, exactly the live remote ones below the threshold are dropped and the others stay covered |
| PricedList.Priced.Underpriced | chain/core/tx_list.go:495-517 | true if and only if the sender is remote, the pool is not empty and no live transaction is cheaper than the new one |
| PricedList.Priced.Discard | chain/core/tx_list.go:521-544 | drops live remote transactions such that none that stays is cheaper, as many as asked for or all there are; every other live one stays in the heap, and nothing is dropped twice unless the heap held it twice |
| PoolState.EnqueueSound | chain/core/tx_pool.go:815-838 | queueing a nonce that is not pending keeps the lanes owned, known and disjoint |
| PoolState.EnqueueTight | chain/core/tx_pool.go:815-838 | and keeps the pending nonces of every sender in order an interval with the queue above it |
| PoolState.PlaceFresh | chain/core/tx_pool.go:853-889 | a queued transaction that is promoted is always inserted and replaces nothing: the refusal branch is unreachable |
| PoolState.ReplaceKeeps | chain/core/tx_pool.go:768-791 | replacing a pending transaction keeps both invariants |
| PoolState.RemoveSound | chain/core/tx_pool.go:1011-1052 | removal, with its requeueing, keeps the lanes owned, known and disjoint |
| PoolState.RemoveTight | chain/core/tx_pool.go:1011-1052 | and keeps the pending nonces of every sender in order an interval with the queue above it |
| PoolState.RemoveLosesIff | chain/core/tx_pool.go:1025-1036 | removal loses transactions if and only if it removes the first of several pending ones |
| PoolState.RemoveCanLose | chain/core/tx_pool.go:1025-1036 | nonces 0 and 1 pending: without the first the second is known and in no lane |
| PoolState.DropTopKeeps | chain/core/tx_pool.go:1163-1176 | one step of the fairness limit keeps both invariants |
| PoolMoves.PromoteSound | chain/core/tx_pool.go:1066-1117 | working off one account keeps the lanes owned, known and disjoint, and touches no other sender |
| PoolMoves.PromoteTightens | chain/core/tx_pool.go:1066-1117 | and turns a settled account into one whose pending nonces run from the state's nonce to the tracked one with the queue above |
| PoolMoves.PromoteDrains | chain/core/tx_pool.go:1096-1101 | and, whatever the lanes look like, leaves nothing queued that could follow the pending transactions: the sender's next nonce is not in its queue |
| PoolMoves.PromoteReadyIff | chain/core/tx_pool.go:1066-1101 | of a settled account a queued transaction becomes pending if and only if every nonce from the next one up to its own is queued, not passed by the state, and payable in cost and gas |
| PoolMoves.PromoteSorts | chain/core/tx_pool.go:1066-1117 | a queued transaction ends in a lane or is dropped; it is dropped if and only if the state has passed it, its sender cannot pay its cost, its gas exceeds the block's, or it is not ready and lies beyond a full queue of a remote account |
| PoolMoves.PromoteLosesNone | chain/core/tx_pool.go:1066-1117 | if every known transaction was in a lane, promotion leaves it so |
| PoolMoves.PromoteLimits | chain/core/tx_pool.go:1103-1111 | a remote account keeps at most its queue limit |
| PoolReset.DemoteSound | chain/core/tx_pool.go:1255-1299 | demotion keeps the lanes owned, known and disjoint |
| PoolReset.DemoteSorts | chain/core/tx_pool.go:1258-1292 | a pending transaction is dropped if and only if the state has passed it or its sender cannot pay its cost or gas; it stays pending if and only if the lane holds the state's nonce and can be paid for from there up to it, and is queued again otherwise |
| PoolReset.DemoteLosesNone | chain/core/tx_pool.go:1255-1299 | if every known transaction was in a lane, demotion leaves it so |
| PoolReset.DemoteIntervalIff | chain/core/tx_pool.go:1284-1292 | the lane left is an interval from the state's nonce if and only if there was no gap before a payable stretch |
| PoolReset.DemoteSettles | chain/core/tx_pool.go:1255-1299 | an account in order is settled under any new state once demoted and tracked |
| PoolGap.ReinjectionCanLeaveGap | chain/core/tx_pool.go:391-400 | a pool in order, nonces 0 and 1 handed back, the second refused as underpriced: nonces 0 and 2 are left pending |
| PoolGap.FullPoolCanStall | chain/core/tx_pool.go:384-407 | a full pool in order that drops one sender's pending transaction for another's reinjected one: a whole reset, from the reinjection to the limits, at whose end the nonce the state waits for is still queued and the sender is not in order |
| PoolStall.ReinjectionCuts | chain/core/tx_pool.go:391-395 | whatever is reinjected, another sender who was in order keeps an interval from the old state's nonce, possibly cut at its end, and its next nonce is tracked exactly where a cut fell below the new state's |
| PoolStall.RecoversIff | chain/core/tx_pool.go:395-407 | demotion, tracking and promotion put such a sender in order if and only if its next nonce is not tracked by then |
| PoolStall.ResetTightIff | chain/core/tx_pool.go:384-407 | a sender who was in order and of whom nothing is reinjected is in order under the new state if and only if the reinjection dropped none of its pending nonces below the new state's |
| PoolStall.UnpassedStaysTight | chain/core/tx_pool.go:384-407 | so a sender is in order, however full the pool, if the new state has passed none of its pending nonces |
| PoolStall.OutOfReachStaysTight | chain/core/tx_pool.go:384-407 | and so is a sender whom the batch cannot reach, whatever the new state has passed |
| PoolDrain.RemoveAllDrained | chain/core/tx_pool.go:1011-1052 | removals leave nothing queued that could follow the pending transactions if nothing was |
| PoolDrain.FinishedDrains | chain/core/tx_pool.go:1055-1250 | promotion with both limits leaves every listed sender, and every other of whom it held, with nothing ready in its queue |
| PoolDrain.BatchDrains | chain/core/tx_pool.go:949-979 | so does a whole batch of additions with the promotion after it, for every sender of whom it held |
| PoolDrain.ResetDrains | chain/core/tx_pool.go:384-407 | and a new head for every sender, whatever was queued before and whatever is reinjected |
| PoolRoom.InsertSize | chain/core/tx_pool.go:766-799 | insertion makes the pool larger by one if and only if the transaction is accepted at a new nonce, and otherwise leaves its size |
| PoolRoom.OverflowsIff | chain/core/tx_pool.go:744-761 | an addition takes a pool within its limit over it if and only if the pool was full, knew no remote transaction, and the accepted one replaces none |
| PoolRoom.LocalsCanOverflow | chain/core/tx_pool.go:744-761 | a pool of two with two local transactions that accepts a third |
| PoolRoom.FullForgets | chain/core/tx_pool.go:744-761 | a full pool that knows a remote transaction does not grow, and forgets a remote one for an accepted transaction |
| PoolRoom.RefusedKeepsIff | chain/core/tx_pool.go:728-812 | a refused addition leaves the pool as it was if and only if it was refused before room was made, or none had to be made, or none could be |
| PoolRoom.RefusedCanDrop | chain/core/tx_pool.go:744-775 | a full pool in which a bid of 101 against 100 is refused after another sender's transaction was dropped for it |
| PoolRoom.RoomMade | chain/core/tx_pool.go:754-759 | where nothing is counted twice a full pool ends within its limit, or everything else in it is local |
| PoolRoom.BatchStaysWithin | chain/core/tx_pool.go:949-979 | a batch into a pool of remote transactions within its limit ends within it |
| PoolRuns.ApplySound | chain/core/tx_pool.go:728-1299 | every move the operations are made of keeps the first invariant |
| PoolRuns.ApplyTight | chain/core/tx_pool.go:728-1250 | and the second for every sender of whom it held |
| PoolRuns.ApplyLosesIff | chain/core/tx_pool.go:728-1250 | of all moves exactly one loses transactions, the removal of the first of several pending ones; after any other every known transaction is still in a lane |
| PoolRuns.EveryRun | chain/core/tx_pool.go:728-1250 | every state of every run between two heads keeps the first, and the second for every sender of whom it held |
| PoolRuns.ResetRestores | chain/core/tx_pool.go:395-407 | whatever state a new head brings, a sender whose lanes are in order and whose nonce is not tracked has both again after demotion, tracking and promotion |
| PoolFair.DropTopTrims | chain/core/tx_pool.go:1163-1176 | one step takes exactly the highest nonce of one lane and one from the total, and the next nonce follows it down |
| PoolFair.RoundKeeps | chain/core/tx_pool.go:1160-1178 | a round over the earlier offenders keeps them ahead of every remaining spammer and above the guaranteed slots |
| PoolFair.RoundFair | chain/core/tx_pool.go:1160-1204 | and leaves no remote sender with more than one that lost something |
| PoolFair.RoundNeeded | chain/core/tx_pool.go:1160-1204 | a round that started above the limit was needed: one transaction more for each sender cut would not fit |
| PoolFair.LimitsHold | chain/core/tx_pool.go:1119-1207 | when the loops end the total fits or every remote sender is at its slots, and nothing was cut in vain |
| PoolFair.UnloadStep | chain/core/tx_pool.go:1226-1248 | one account of the queue limit keeps the count of what is over, the highest-nonce order within lanes and the heartbeat order among senders |
| PoolFair.QueueLimitHolds | chain/core/tx_pool.go:1209-1249 | after the queue limit the total fits or only local senders have queued transactions, and nothing below the limit was dropped |
| PoolFacts.RemoveAllKeeps | chain/core/tx_pool.go:440-447 | several removals keep both invariants and forget exactly the removed ones |
| PoolFacts.InsertKeeps | chain/core/tx_pool.go:766-799 | the insertion of add keeps both invariants and touches no other sender |
| PoolFacts.InsertPlaces | chain/core/tx_pool.go:766-799 | an accepted transaction is known and in a lane |
| PoolAdds.AddedSpares | chain/core/tx_pool.go:728-812 | a transaction leaves another sender's lanes and nonce alone if that sender is local or the pool is not full |
| PoolAdds.BatchKeepsOrder | chain/core/tx_pool.go:949-979 | a whole batch with its promotion leaves in order every sender it cannot reach: not one of its senders, and local, or within its slots while the pool has room for the batch |
| TxValidation.AdmittedNonce | chain/core/tx_pool.go:524-726 | whatever its kind, an admitted transaction is signed and not below the state's nonce |
| TxValidation.AdmittedPayingIff | chain/core/tx_pool.go:524-726 | a normal or extra transaction is admitted if and only if its size, type and sign are right, it is signed, its nonce is not passed, its gas fits the block and covers its intrinsic cost, its sender can pay, and it is local or at the pool's price |
| TxValidation.AdmittedFreeIff | chain/core/tx_pool.go:524-726 | one of the other kinds if and only if its size, type and sign are right, it is signed and its nonce is not passed |
| TxValidation.AdmittedPayableIff | chain/core/tx_pool.go:524-726 | admission promises that the sender can pay if and only if the kind pays gas (or is never admitted) |
| TxValidation.UnpayableVanishes | chain/core/tx_pool.go:1079-1087 | an unpayable transaction that was queued is dropped by the next promotion |
| TxPool.Pool.constructor | chain/core/tx_pool.go:168-200 | the empty pool has both invariants |
| TxPool.Pool.EnqueueTx | chain/core/tx_pool.go:815-838 | leaves exactly the described lanes and known set, and the heap loses nothing live |
| TxPool.Pool.PromoteTx | chain/core/tx_pool.go:853-889 | likewise, with the tracked nonce and the sender's heartbeat |
| TxPool.Pool.RemoveTx | chain/core/tx_pool.go:1011-1052 | likewise; the requeueing loop is never refused, and the heartbeat goes exactly with the pending lane |
| TxPool.Pool.PromoteList | chain/core/tx_pool.go:1096-1101 | the promotion loop moves the whole run and is never refused |
| TxPool.Pool.WorkOff | chain/core/tx_pool.go:1066-1117 | one account of promoteExecutables leaves exactly the described state, nothing ready in the sender's queue, a heap that covers the known set, and a new heartbeat exactly if something became pending |
| TxPool.Pool.Round | chain/core/tx_pool.go:1163-1177 | one round lowers every listed lane by one and the counter stays the true total |
| TxPool.Pool.Equalize | chain/core/tx_pool.go:1153-1180 | the inner loop brings the earlier offenders to the last one's length or meets the limit |
| TxPool.Pool.LowerAll | chain/core/tx_pool.go:1186-1204 | the last loop lowers all offenders together to the slots or meets the limit |
| TxPool.Pool.LimitPending | chain/core/tx_pool.go:1119-1207 | total pending fits or every remote sender has at most its slots; local lanes are untouched, no lane is cut below its slots, only highest nonces go and the next nonces follow them down, no remote sender ends above one that was cut, and one transaction more for each sender cut would exceed the limit |
| TxPool.Pool.LimitQueue | chain/core/tx_pool.go:1209-1249 | total queued fits or only local senders have queued transactions; senders heard of last lose first, and heartbeats stay |
| TxPool.Pool.PromoteExecutables | chain/core/tx_pool.go:1055-1250 | all accounts are worked off, exactly the senders of whom something became pending were heard of now, then both limits hold, both invariants are kept, and nothing ready is left in the queue of a listed sender or of one who had nothing ready before |
| TxPool.Pool.Demote | chain/core/tx_pool.go:1258-1298 | one account of demoteUnexecutables leaves exactly the described state |
| TxPool.Pool.DemoteUnexecutables | chain/core/tx_pool.go:1255-1299 | every pending account is demoted once |
| TxPool.Pool.MakeRoom | chain/core/tx_pool.go:744-761 | a full pool refuses a transaction no better than everything in it, and otherwise drops the cheapest remote ones, as many as it takes for one more to fit or all there are |
| TxPool.Pool.Admit | chain/core/tx_pool.go:744-812 | a validated transaction is refused if a full pool has nothing worse, and otherwise lodged in the room made for it |
| TxPool.Pool.Add | chain/core/tx_pool.go:728-812 | refused for the first reason that applies before room is made, leaving everything as it was; otherwise the cheapest remote transactions of a full pool go, as many as needed or all; the insertion decides the answer, the sender becomes local exactly when it should, an accepted transaction is in a lane, and unless the price heap held an entry twice a full pool ends within its limit or with nothing else that is remote |
| TxPool.Pool.AddTxs | chain/core/tx_pool.go:949-979 | each transaction of the batch is added to what the ones before left and gets that answer; then exactly the senders of new transactions are promoted and both limits applied, or nothing if there are none; nothing ready is left queued if nothing was, and a remote batch keeps a remote pool within its limit |
| TxPool.Pool.SetGasPrice | chain/core/tx_pool.go:440-449 | exactly the remote transactions below the new price are forgotten, both invariants are kept, and nothing ready is left queued if nothing was |
| TxPool.Pool.Reset | chain/core/tx_pool.go:315-408 | nothing changes if the walk or the new state is missing; otherwise the lanes are sound and the heap covers them whatever is reinjected; a sender who was in order and of whom nothing is reinjected is in order under the new state if and only if the reinjection dropped none of its pending nonces below the new state's; and one whom the batch cannot reach is in order; nobody is left with anything ready in the queue |
| WeightedSelect.FlatTotals | chain/les/randselect.go:98-104 | in a well-formed tree the stored sum and count of every node are those of its slots |
| WeightedSelect.BranchChanges | chain/les/randselect.go:107-157 | changing one slot of one branch keeps every node's sum, weight and count right and changes exactly that slot of the flat list |
| WeightedSelect.FindBranch | chain/les/randselect.go:108-114 | with room in the node the branch search never runs off the end |
| WeightedSelect.Insert | chain/les/randselect.go:107-132 | the item goes into a free slot and the returned index is that slot |
| WeightedSelect.SetWeight | chain/les/randselect.go:136-157 | exactly the indexed slot is reweighed, and freed for weight zero |
| WeightedSelect.ScanIff | chain/les/randselect.go:160-173 | the cumulative scan stops at a slot exactly for the values of an interval as long as its weight |
| WeightedSelect.Choose | chain/les/randselect.go:160-173 | the descent through the tree equals the cumulative scan of the flat list |
| WeightedSelect.DrawsAreProportional | chain/les/randselect.go:79-94 | of all draws below the sum exactly weight-many select each slot |
| WeightedSelect.NewLevel | chain/les/randselect.go:62-69 | a new level above the root keeps every index |
| WeightedSelect.Select.SetItem | chain/les/randselect.go:54-73 | exactly the item's weight changes, and the index finds every item again |
| WeightedSelect.Select.ChooseItem | chain/les/randselect.go:79-94 | every draw finds the slot the cumulative scan of the slots left by the draws before it finds, and stores the weight the item has now; a draw is kept if the weight has not fallen or the coin falls within what is left of it; the choice is the first draw kept, the loop ends, an item is lost only where a draw found it without weight, and no choice means no weight is left |
| WeightedSelect.Select.DrawOnce | chain/les/randselect.go:84-91 | one draw changes exactly the slot it finds, to the weight the item has |
| WeightedSelect.KeptShare | chain/les/randselect.go:84-93 | of the pairs of a drawing number and a coin, an item whose weight has fallen keeps exactly the share of the weight it has |
| ChainTruncation.AloneStep | chain/core/chain_indexer.go:386-398 | a truncation loop that runs alone keeps the heads exactly below the count, but for the one it is about to remove, and ends at its target |
| ChainTruncation.MeetingIff | chain/core/chain_indexer.go:386-398 | of two truncation loops that meet, every schedule ends with the heads exactly below the count if and only if the reorganisation keeps no section, and no head is left or else at most one section is stored, with no loop about to remove a head while one is |
| ChainIndexer.StepKeeps | chain/core/chain_indexer.go:202-351 | every chain event and every statement of the truncation loops and step of the worker that does not start a second truncation keeps the section heads exactly below the stored count and joined by full sections |
| ChainIndexer.EveryRun | chain/core/chain_indexer.go:202-351 | so does every interleaving from an empty index in which no two truncations overlap |
| ChainIndexer.OverlapIff | chain/core/chain_indexer.go:322-330 | when a second truncation starts while one is running, every schedule of the two ends with the section heads in order if and only if the meeting is harmless in that sense |
| ChainIndexer.HealthyStep | chain/core/chain_indexer.go:202-351 | every step that starts no second truncation, or one that is harmless in that sense, keeps the heads in order or leaves a harmless overlap being worked off |
| ChainIndexer.HarmlessRun | chain/core/chain_indexer.go:202-351 | so on every run from an empty index whose overlaps are all harmless, in any number and also where a further reorganisation joins a clearing that is not over, the section heads are in order whenever no truncation is under way |
| ChainIndexer.EveryOverlap | chain/core/chain_indexer.go:202-351 | at every overlap of a run that only harmless ones precede, every schedule of the two truncations restores the heads if and only if it is harmless too |
| ChainIndexer.KnownAfterHead | chain/core/chain_indexer.go:229-240 | a head makes known the greatest number of sections that end the asked confirmations below it, if that is more, and changes nothing else |
| ChainIndexer.KeptAfterReorg | chain/core/chain_indexer.go:206-227 | a reorganisation leaves as many known and stored sections as end at or below its head, or the fewer there were, and their heads |
| ChainIndexer.BegunConfirmed | chain/core/chain_indexer.go:202-281 | on every run whatsoever a section is begun only after a head was announced that lies the asked confirmations past its end, with no reorganisation into or below it since |
| ChainIndexer.IndexesNext | chain/core/chain_indexer.go:261-303 | an update that nothing disturbs, given a section of linked headers, stores exactly the next section with the last of them |
| ChainIndexer.StaleSectionIff | chain/core/chain_indexer.go:206-227 | an update that has read its section stores it after a reorganisation to an ancestor below its last header if and only if the ancestor lies in that section |
| ChainIndexer.StaleSectionCanStay | chain/core/chain_indexer.go:283-290 | a run from an empty index that ends with a section stored whose last header was reorganised away |
| ChainIndexer.NobodyHeldUp | chain/core/chain_indexer.go:202-351 | chain events wait only for the lock, truncations and reads can always go on, and an update is begun whenever a known section is not stored |
| ChainIndexer.FailureWaits | chain/core/chain_indexer.go:298-303 | after a failed update none is begun before a chain event |
| ChainIndexer.TruncationsCanTear | chain/core/chain_indexer.go:322-330 | a run from an empty index that ends with no section counted and the head of section 2 stored |
| ChainIndexer.OneChain | chain/core/chain_indexer.go:386-429 | whenever no truncation is under way any two stored heads are joined by as many headers as there are between their sections: all lie on one chain |
| ChainIndexer.NotifiedBySteps | chain/core/chain_indexer.go:202-241 | the state a locked chain event ends with is the one its single steps lead to |
| ChainIndexer.LinkedUnique | chain/core/chain_indexer.go:334-345 | a head determines the header any number of generations back |
| ChainIndexer.Indexer.SetValidSections | chain/core/chain_indexer.go:386-398 | the loop removes exactly the heads of the sections that fall away |
| ChainIndexer.Indexer.NewHead | chain/core/chain_indexer.go:202-241 | is the chain event of the state machine; without a reorganisation the known count becomes the larger of the old one and the greatest number of confirmed sections |
| ChainIndexer.Indexer.ReadSection | chain/core/chain_indexer.go:334-350 | succeeds exactly when every read continues the ones before, and then ends one section of linked headers later |
| ChainIndexer.Indexer.Complete | chain/core/chain_indexer.go:283-303 | is the locked end of an update of the state machine |
| Distributor.InsertOrdered | chain/les/distributor.go:242-251 | inserting at the place of the number keeps the queue strictly sorted |
| Distributor.MatchesNext | chain/les/distributor.go:192-213 | a request is matched exactly with the able peers that no earlier request took, so every peer keeps its earliest |
| Distributor.Requests.Queue | chain/les/distributor.go:233-260 | a new request goes to the back, a resent one to its old place, and the queue stays strictly sorted; one that is still queued is queued a second time, next to itself |
| Distributor.Requests.Cancel | chain/les/distributor.go:265-285 | takes exactly the request out and says whether it was queued |
| Distributor.ScanQueue | chain/les/distributor.go:190-220 | the scan closes exactly the longest prefix nobody can serve and collects every peer with its earliest request |
| Distributor.Ask | chain/les/distributor.go:193-213 | the loop over the peers sorts pairs into those that can be sent at once and the one that waits least |
| Distributor.Requests.NextRequest | chain/les/distributor.go:178-227 | answers with a peer that takes requests and the earliest one it may be sent, such that no other such pair waits less, and with nothing if and only if no peer takes a request it may be sent; closes exactly the longest prefix nobody can serve |
| EntryQueue.HoldsIff | chain/les/serverpool.go:739-743 | the position test finds exactly the entries of the recency list |
| EntryQueue.PlacedDelete | chain/les/serverpool.go:739-743 | deleting a position takes exactly its entry out of the list and keeps positions between the cursors |
| EntryQueue.PlacedAppend | chain/les/serverpool.go:757-759 | the newest position is the end of the list |
| EntryQueue.Queue.FetchOldest | chain/les/serverpool.go:724-736 | the scan ends and returns and removes the least recently set entry |
| EntryQueue.Queue.Remove | chain/les/serverpool.go:739-743 | removes the entry from the list, if it is there |
| EntryQueue.Queue.SetLatest | chain/les/serverpool.go:747-760 | the entry becomes the most recent; a new one evicts the least recent of a full queue, so the size never exceeds the limit |
| Gas.IntrinsicGas | chain/core/state_transition.go:79-119 | 21000, or 53000 for a creation, plus 68 for every byte that is not zero and 4 for every other |
| Gas.AcceptedIff | chain/core/state_transition.go:284-335 | gas is bought if and only if the nonce is right where it is checked, the gas fits 64 bits and the pool, and the sender has gas times price |
| Gas.PoolFallsByUse | chain/core/state_transition.go:337-383 | a successful transaction required exactly what the machine did not leave, at least the intrinsic gas; the greatest amount within half of that and the refund counter comes back, the rest is the gas used and what the pool falls by; it counts as failed exactly if the machine failed, and nothing leaves 64 bits |
| Gas.SenderPaysForUse | chain/core/state_transition.go:284-312 | the sender pays exactly the gas used times its price on top of what the machine did, and no other balance changes by gas |
| Gas.FailureKeepsPoolIff | chain/core/state_transition.go:337-383 | a failed transaction leaves the pool as it was if and only if it was refused before gas was bought or asked for none |
| Gas.FailureCanEmptyPool | chain/core/state_transition.go:337-356 | a message one gas short of its intrinsic cost takes the whole pool with it |
| Gas.FailureNonces | chain/core/state_transition.go:337-369 | a failed transaction raises its sender's nonce if and only if the machine was asked for a call |
| Gas.NonceRises | chain/core/state_transition.go:363-369 | a transaction carried out, call or creation, raises its sender's nonce, by exactly one unless the virtual machine raises it too; no nonce falls, none but the sender's rises unless the machine raises it, and the message cannot be carried out again |
| Gas.GasPool.SubGas | chain/core/gaspool.go:15-22 | takes the gas or refuses and changes nothing |
| Gas.GasPool.AddGas | chain/core/gaspool.go:8-12 | gives gas back |
| Gas.PreCheck | chain/core/state_transition.go:284-335 | refuses for the first reason that applies and changes nothing, or buys the gas |
| Gas.RefundGas | chain/core/state_transition.go:654-672 | pays back what is left and the greatest refund within half of the gas required and the counter, and returns both to the pool |
| Gas.NormalTransition | chain/core/state_transition.go:337-383 | the sequence of updates is the described transition in every outcome |
| Gas.Process | chain/core/state_processor.go:55-96 | over a block of normal transactions gas used plus pool left is the gas limit, each receipt holds its transaction's gas and the running total, the ledger is the one the transactions in turn lead to, and the first failing transaction fails the block |
| Gas.CumulativeIsSum | chain/core/state_processor.go:132-137 | the running total is the sum of the gas used |
| Gas.SetReceiptsData | chain/core/blockchain.go:667-698 | the differences of the cumulative gas are filled in so that the running totals hold |
| Gas.GasRestored | chain/core/blockchain.go:681-687 | the filled-in amounts are the ones the block was processed with |
| DerivationPath.ParseDerivationPath | chain/accounts/hd.go:67-117 | the loop parses component by component, the first bad one deciding the error |
| DerivationPath.String | chain/accounts/hd.go:121-135 | the loop prints the canonical form |
| DerivationPath.ComponentRead | chain/accounts/hd.go:92-114 | every 32-bit component, hardened or not, is read back from its printed form |
| DerivationPath.RoundTrip | chain/accounts/hd.go:67-135 | every nonempty path of 32-bit components survives printing and parsing |
| DerivationPath.RelativeRead | chain/accounts/hd.go:71-88 | a path typed without the prefix is read below the default root |
| DerivationPath.SpaceIgnored | chain/accounts/hd.go:92-101 | white space around a component does not matter |
| DerivationPath.SpaceIff | chain/accounts/hd.go:92-101 | exactly the 25 Unicode space characters are trimmed |
| DerivationPath.HexRead | chain/accounts/hd.go:100-103 | a component may be written in hexadecimal |
| DerivationPath.DigitsPlace | chain/accounts/hd.go:100-103 | a text is a number of a base if and only if it consists of its digits, and then the one their places say |
| DerivationPath.DigitIff | chain/accounts/hd.go:100-103 | exactly the decimal digits and the letters of either case up to the base are digits |
| DerivationPath.PrefixRead | chain/accounts/hd.go:100-103 | the prefix chooses hexadecimal, binary or octal, and a text without one is decimal |
| DerivationPath.SignRead | chain/accounts/hd.go:100-103 | a sign may stand before a number |
| DerivationPath.ComponentCases | chain/accounts/hd.go:92-114 | a component that is no number is invalid, and one below 0 or beyond 2^32 - 1, or 2^31 - 1 if hardened, is out of range |
| DerivationPath.PathErrors | chain/accounts/hd.go:71-91 | a blank first part is ambiguous, and `m` alone is empty |
| DerivationPath.ParsePrintParse | chain/accounts/hd.go:67-135 | whatever parses is a nonempty 32-bit path, and printing and parsing it again is the identity |
| DerivationPath.RoundTripIff | chain/accounts/hd.go:67-135 | a 32-bit path survives printing and parsing if and only if it is not empty |

## Left out

- Hasher.ReadFrom and several Writes before one Sum: the tree hasher is modelled for one Write and one Sum per tree.
- Tree pool reservation, and the prefix that Sum hashes together with the root when it is given one: outside the tree itself.
- Block validation, state commits and the database writes of receipts in WriteBlockAndState: only the indexes are modelled.
- HeaderChain.HeaderChain.WriteHeader: asks that the header's number follows a stored parent's, which the callers validate; what a restart makes of the index torn by a missing header is not modelled.
- ReorgRuns.HeadsInRun: asks for positive difficulties, which header verification ensures (chain/consensus/dpos/dpos.go:158).
- ReorgRuns.EveryRun: asks that no block is written on whose chain a transaction repeats, which block validation ensures by nonces.
- The pool keeps its lists as values: the list objects of `TxListOps` are proved equal to those values, but the pool class does not alias them.
- Nonces, gas sums and order numbers are unbounded where the code uses 64 bits, except in `Gas`; the code would wrap at the largest nonce.
- The priority queue of spammers orders by 32-bit floats, exact below 2^24 transactions per sender; the model takes a longest lane.
- TxPool.Pool.Reset: takes the reinjected transactions as a parameter; `ForkWalk.Reinjected` states which ones they are.
- The exact count of stale entries in the price heap: the code does not keep it.
- PricedList.Priced.Discard: the list may name a transaction twice when the heap holds it twice, so the number asked for counts entries.
- TxPool.Pool.Add: that a pool several over its limit comes back within it is promised only where the price heap holds no entry twice, because the code counts heap entries; `PoolRoom.OverflowsIff` needs no such condition.
- The list's Check, which only logs, journal, event broadcast, time-based eviction (a sequence of removals), statistics and the pool's read accessors.
- The nodes of the weight tree are values; the code updates them in place.
- AddKnownSectionHead and child indexers.
- ChainIndexer.EveryRun: each statement of a truncation loop is one step, and the section count that the code also writes to its database is not modelled.
- ChainIndexer.OverlapIff: after a harmful overlap nothing more is said about the run than that some schedule ends with the heads wrong.
- BmtTheorems.RunKeeps: releaseTree is one step of the model; it runs when all goroutines have ended, which `BmtTheorems.ReleasedTree` states.
- Sending in the distributor's main loop, and the peers' flow control, which is a parameter.
- Float-weighted statistics of the server pool.
- Gas of system, user, extra and stock transactions, which depends on contract state outside these files; miner rewards.
- Path numbers follow the base-0 rules of Go 1.9: no underscores and no `0o` prefix.
- Consoles, RPC, network handlers, the consensus engine, the virtual machine, tries and RLP.
