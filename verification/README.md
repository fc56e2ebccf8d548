# Verification of the Aergo indexer

The Aergo indexer copies a blockchain into a search database: for every block it stores the
block document and the documents derived from it (transactions, events, contracts, token
transfers, account tokens). This project models the parts whose correctness does not follow
from reading one function, and proves what they are for. `dafny verify dfyconfig.toml`
checks everything.

## What is modelled

**The bulk pipeline** (`Pipeline*.dfy`). A dispatcher, N miners, five dependent writers, the
block writer and its timer, joined by unbuffered channels, as a transition system: every
rendezvous is one step of its two sides, every document a writer commits is a step of its own, so
the process may die between any two documents. The block writer commits only after it has
sent Commit to the five dependents and collected five acks. Proved over all runs and all
interleavings: a block in the database has its documents there; each round collects one ack
from each dependent; no reachable state is stuck; every run ends; at StopBulk nothing is
buffered and everything dispatched is written. Account tokens, which an in-memory cache
deduplicates across heights, are never lost for good in a run that dispatches missing heights only, as a check
does, nor in any other whose committed heights have theirs secured. `PipelineSafety` holds the invariant,
one lemma per conjunct; `PipelineAccounts` follows the claims on account tokens;
`PipelineTheorems` and `PipelineLiveness` hold the results, `PipelineStalls` the schedule that
leaves an account token out, `PipelineBounds` when a writer commits and how full buffers get.

**One writer and its index** (`BulkIndexer.dfy`, `BulkRefinement.dfy`). The writer's loop as a
class over its own fields, with an `int32` counter that is proved not to overflow, on an index with
contents. Where it flushes cannot be seen in the outcome. Each message it receives is a run of the
transition system.

**What a miner sends** (`Miner.dfy`, `MinerOrder.dfy`, `Ids.dfy`). The documents of a block in the order in which they
go out. With the pipeline this states crash consistency in terms of transactions, events and transfers.
Composite ids can be decoded, so that creating a document where its id is absent never
merges two different ones.

**The gap finder** (`Scroll.dfy`, `CheckIndex.dfy`). The descending scan over the indexed heights in
64-bit unsigned arithmetic, the ranges it dispatches, and the paged cursor beneath it. The
set of dispatched heights is characterised exactly. When `startFrom` itself is indexed, the gap directly above
it is not dispatched (`indexer/run_check.go:76`, `indexer/run_check.go:86`); the project
keeps this, and proves that the scan dispatches every missing height if and only if
`startFrom` is not indexed or nothing is missing right above it.

**Recovery** (`Recovery.dfy`). The gap finder feeding the pipeline, any number of times, each check dying at
an arbitrary step. A check that then runs to its end leaves the same ids in all six indices as
one uninterrupted check from the start, under that same condition on `startFrom`.

**Fix** (`Fix.dfy`). A fix sends committed heights as well. Run to its end it leaves the whole range indexed; one
that dies keeps account tokens recoverable under every schedule if and only if those of the committed heights of
its range are there, or owed by a height outside it.

**Following the stream** (`OnSync.dfy`, `StartAll.dfy`, `Together.dfy`, `Rewind.dfy`). `SyncBlock` and `sleepStream`
with their heights; where check and stream meet in mode "all", with the exact condition on the range under
which nothing lies between them; both writing at the same time; and rewinds beside the asynchronous miner, as a
transition system whose deletes are separate steps. Over any run, a block that the miner holds when a rewind
deletes its height is the only kind that can be left incomplete or reappear; and for each rewind the state in which it
begins decides exactly whether something can be left above its target, and whether a document can be missing.

**The verification whitelist** (`Whitelist.dfy`, `WhitelistTheorems.dfy`, `ContractVerified.dfy`,
`ContractTheorems.dfy`, `Cache.dfy`). `Cache` has the whitelist as one index that token and contract entries
share, and its refresh is proved to be one of the token entries and one of the contract entries. The refresh that reconciles the whitelist with token documents keeps attribution
always and settles after two rounds; one round is enough exactly when no later entry gives up a contract that
an earlier one has taken over. For contracts the same holds, and their code is not fetched again
while the stored URL is the one of the metadata (`indexer/miner.go:366-369`). Over any number of
refreshes of all entries one fetch decides whether a contract is verified: without a URL the last one; with one,
that of the second refresh if an entry after the contract's own gives it up in the first, and else that
of the first, unless the contract already had the URL and nobody gave it up before its turn.

**Documents written from several heights** (`Upserts.dfy`). NFTs and account balances under any order of processing.

## Where the code differs from what one would expect

- `checkIndex` skips the gap directly above an indexed `startFrom`: `CheckIndex.GapAboveStartSkipped` is an
  instance, `CheckIndex.DispatchCompleteIff` the exact condition.
- With `stopAt` at the top of the 64-bit range, `stopAt + 1` wraps and nothing is dispatched
  (`CheckIndex.DispatchExact`).
- In mode "all" some height between check and stream can be left to nobody if and only if an upper end is given
  that lies below the stream's first height or at the top of the 64-bit range, and `startFrom` lies below the
  node's best block (`StartAll.NoHoleIff`; with fix, `StartAll.NoHoleWithFixIff`).
- A rewind can leave a block above its target if and only if, when it begins, the miner holds a block above the
  target or the index has one above `lastHeight`; and a block without one of its documents if and only if one is
  incomplete already, or the miner has lost a document it inserted, or the miner holds a block that the rewind
  deletes and that has a document in an index deleted from (`Rewind.RewindHoldsIff`,
  `Rewind.RewindLosesNothingIff`, with the instance `Rewind.BusyRewindLosesTx`).
- A fix that dies can lose an account token for good: two heights that share it end up committed without it, and no
  later check mines them (`Fix.FixKeepsTokensIff`, with the instance `Fix.CheckThenFixLosesToken`). A fix that
  ends restores it (`Fix.CompleteFix`).
- Registration lists a contract document in place of a token document that carries the same token address
  (`Cache.RegistrationAttributesIff`).
- A failed code fetch is not repeated while the contract keeps its URL: later refreshes verify it only if another
  entry gave it up, and so cleared its URL, after the fetch (`ContractTheorems.VerifiedIffDecidingFetch`, with the
  instance `ContractTheorems.GivenUpIsFetchedAgain`).

## Model

| member | source | states |
|---|---|---|
| `PipelineTheorems.CrashConsistent` | indexer/bulk.go:140-204 | in every reachable state, wherever the process dies, a block in the database has all its tx, event, contract and token_transfer documents there |
| `PipelineTheorems.StepSafe` | indexer/bulk.go:116-204 | each rendezvous, written document and phase change keeps the whole invariant: barrier shape, dispatcher order, what is sent, backed, sourced and tracked |
| `PipelineBounds.BuffersBounded` | indexer/bulk.go:195-199 | in every reachable state no writer buffers more than bulkSize documents, or one where that is not positive |
| `PipelineBounds.BlockFlushIff` | indexer/bulk.go:195-202 | a block starts the barrier if and only if it finds the buffer full, and is otherwise buffered without anything being written |
| `PipelineBounds.DocFlushIff` | indexer/bulk.go:195-202 | a document makes its own writer commit if and only if it finds that buffer full; no other writer is touched |
| `PipelineBounds.CommitStartsIff` | indexer/bulk.go:140-147 | a Commit, forced or from the timer, starts the barrier if and only if blocks wait, and changes nothing otherwise |
| `PipelineBounds.AskedAcksIff` | indexer/bulk.go:141-144 | a dependent that is asked to commit acks at once if and only if nothing waits with it |
| `PipelineBounds.WritesBuffered` | indexer/bulk.go:162-179 | commits write what is buffered and nothing else, and take it out of the buffer |
| `PipelineSafety.BarrierKept` | indexer/bulk.go:149-166 | in a round exactly the dependents asked and not yet heard of take part, and outside a round none does, so that no ack is ever left over |
| `PipelineSafety.OrderedKept` | indexer/bulk.go:83-102 | which miners and writers have stopped follows from how far the dispatcher is, and the block writer is empty from the forced Commit on |
| `PipelineSafety.SentKept` | indexer/miner.go:40-48 | what a miner has dealt with is in the database or in a writer's buffer before it goes on |
| `PipelineSafety.BackedKept` | indexer/bulk.go:149-162 | documents of a block the block writer holds are in the database or in a dependent the round has still to flush |
| `PipelineSafety.SourcedKept` | indexer/dto.go:10-52 | every buffered document belongs to a height whose own block is still to be written |
| `PipelineSafety.ConsistentKept` | indexer/bulk.go:149-162 | writing one block document keeps crash consistency, because its dependents were flushed first |
| `PipelineSafety.TrackedKept` | indexer/bulk.go:34-45 | a dispatched height is committed, in the block writer's hands, or with a miner: none is dropped |
| `PipelineTheorems.OnlyJobsWritten` | indexer/bulk.go:183-203 | a run keeps what the database had and adds only blocks and documents of dispatched heights |
| `PipelineTheorems.ShutdownLeavesNothing` | indexer/bulk.go:83-102 | from when the block writer can receive StopBulk all six buffers are empty and every dispatched height is completely written, whether or not the forced Commit found anything to flush |
| `PipelineTheorems.AccountTokensRecoverable` | indexer/dto.go:68-79 | heights dispatched once each, in every reachable state an account token of a committed block is in the database or is also yielded by an uncommitted height of the range, which will be mined again; if some dispatched heights are committed before, as with fix, their account tokens have to be there or owed by a height not dispatched |
| `PipelineTheorems.ClaimOwed` | indexer/cache.go:119-125 | under the same condition, an id in the cache that has not reached the database is yielded by a height of the range whose block is not in the database |
| `PipelineStalls.StallLeavesOut` | indexer/cache.go:119-125 | with a miner for each height, some run commits every dispatched height but one and leaves an account token of that one unwritten, its miner stalled between claiming and sending it |
| `PipelineAccounts.CacheBackedKept` | indexer/cache.go:119-125 | a cached id is in the database, in the account-token buffer, or about to be sent by the miner that claimed it |
| `PipelineAccounts.CacheCompleteKept` | indexer/dto.go:68-79 | every dispatched height is still with a miner, or all its account tokens are in the cache |
| `PipelineAccounts.FreshKept` | indexer/run_check.go:55-89 | with heights dispatched once each, no height is at two places, nor committed by this run while a miner or the block writer holds it |
| `PipelineLiveness.NeverStuck` | indexer/bulk.go:34-45 | short of the end some step other than the timer's is possible, and acks collected plus dependents still to be heard of are five |
| `PipelineLiveness.OneAckEach` | indexer/bulk.go:149-160 | between the first Commit of a round and the block writer's own commit each of the five dependents acks exactly once, whatever else happens |
| `PipelineLiveness.StepDecreases` | indexer/bulk.go:140-203 | every step lowers a natural number made of undelivered documents, buffers, phases and the timer's budget |
| `PipelineLiveness.EveryRunEnds` | indexer/bulk.go:86-102 | no run is longer than its initial measure, and one that can go no further has stopped with everything written |
| `PipelineLiveness.CanFinish` | indexer/bulk.go:83-102 | from every reachable state some run reaches the end without any Commit from the timer and without claiming a cached id |
| `BulkIndexer.CreatedIs` | indexer/db/elasticsearch.go:274-283 | create-if-absent: a stored document is never replaced, of several new ones with one id the first is kept, and no other id appears |
| `BulkIndexer.CreatedConcat` | indexer/db/elasticsearch.go:280-283 | committing in two goes leaves what committing in one does |
| `BulkIndexer.ReceivedContent` | indexer/bulk.go:195-202 | whether or not it flushes by size, receiving a document adds it to what the index will hold, and a commit adds nothing |
| `BulkIndexer.ReceivedFlushesIff` | indexer/bulk.go:195-202 | a document reaches the index before the next commit only as one of those it finds in a full buffer |
| `BulkIndexer.DocIndexer.WriteBulk` | indexer/db/elasticsearch.go:280-283 | empties the request list and creates each document whose id is absent, in order |
| `BulkIndexer.DocIndexer.CommitBulk` | indexer/bulk.go:140-181 | writes the whole buffer and acks once if and only if asked to, also when the buffer is empty |
| `BulkIndexer.DocIndexer.Receive` | indexer/bulk.go:183-203 | one message: flush before adding when full, ack a Commit; the int32 count is that of the requests and stays within bulkSize |
| `BulkIndexer.DocIndexer.Run` | indexer/bulk.go:183-203 | for any messages and any bulkSize the outcome is that of creating all documents in order, a final Commit leaves nothing buffered, and every Commit is acked once |
| `BulkRefinement.FlushRuns` | indexer/bulk.go:162-180 | writing a buffer document by document is a run of the pipeline that ends where one atomic commit does |
| `BulkRefinement.AddRefines` | indexer/bulk.go:195-202 | the writer's call on a document is a run of the pipeline that changes nothing but this writer, its index and the sending miner's place |
| `BulkRefinement.CommitRefines` | indexer/bulk.go:190-193 | so is its call on the block writer's Commit, ending with the ack due |
| `Miner.Channels.MinerEventByName` | indexer/miner.go:158-282 | which transfer, account-token and contract documents an event sends, in which order, and when it returns early |
| `Miner.Channels.MinerEvent` | indexer/miner.go:127-137 | the event's own document goes first |
| `Miner.Channels.MinerTx` | indexer/miner.go:57-125 | the transaction's own document goes last on every path out, after everything its receipt yields; a naming or plain transaction sends nothing else |
| `Miner.Channels.MineBlock` | indexer/miner.go:40-48 | all documents of the block go before the block |
| `Miner.BlockStoredIff` | indexer/miner.go:42-45 | a set holds all documents sent for a block's transactions if and only if each transaction's own, its events', transfers' and contracts' documents are in it, and, where they are counted, the account tokens its events touch |
| `MinerOrder.TxLast` | indexer/miner.go:67-89 | a transaction's own document is the last of its documents, and of a naming or plain one the only |
| `MinerOrder.TxOnce` | indexer/miner.go:67-68 | a transaction's own document is sent once |
| `MinerOrder.EventsOnce` | indexer/miner.go:97-101 | each event of a call, deploy, payload or multicall transaction that is not naming is sent once, in the order of the receipt |
| `MinerOrder.TransfersOnce` | indexer/miner.go:158-282 | so is the transfer of each of its mints, and of its transfers and burns with an amount |
| `MinerOrder.BlockOrder` | indexer/miner.go:42-45 | a block's transactions are sent once each, in the order of the block |
| `Miner.CommittedBlockIsWhole` | indexer/miner.go:40-48 | in every reachable state a block in the database has each transaction, each event and transfer of those neither naming nor plain, and each contract deployed or made a token, in the database |
| `Miner.FinishedBlockIsWhole` | indexer/miner.go:40-48 | once the run has stopped every dispatched block has these and the account-token documents of both sides of each transfer, of the receiver of a mint, of the loser of a burn and of a token's creator |
| `Miner.HoldingsSent` | indexer/miner.go:158-282 | an event sends the account-token documents of the accounts it touches, and no others |
| `Ids.EventIdDecodes` | indexer/documents/conv.go:111-112 | block number, transaction index and event index can be read back from an event id |
| `Ids.TransferIdDecodes` | indexer/documents/conv.go:204-206 | transaction id and event index can be read back from a transfer id |
| `Ids.NftIdDecodes` | indexer/documents/conv.go:191-193 | contract and token id can be read back, dashes in the token id included |
| `Ids.AccountTokensIdDecodes` | indexer/documents/conv.go:220-222 | account and contract can be read back |
| `Ids.NameIdDecodes` | indexer/documents/conv.go:180-183 | name and hash can be read back, dashes in the name included |
| `Ids.IdsAreWritten` | indexer/documents/conv.go:111-222 | the ids as stored: decimal numbers and the parts in order, with dashes between |
| `Ids.DashedPartsCollide` | indexer/documents/conv.go:220-222 | with a dash in the contract two accounts share an id, so that the condition is needed |
| `Scroll.EsScrollInstance.Next` | indexer/db/elasticsearch.go:232-260 | takes the next of the outcomes to come: a document, one error for a page or a document that fails, or io.EOF |
| `Scroll.PagingIsInvisible` | indexer/db/elasticsearch.go:232-260 | for any division into non-empty pages, the calls yield each document once and in order |
| `Scroll.FailuresPassOver` | indexer/db/elasticsearch.go:235-239 | a failed call delivers nothing and ends nothing: the scan sees the numbers of the answers that came |
| `Scroll.EmptyPageEnds` | indexer/db/elasticsearch.go:245-259 | an empty page is the end |
| `Scroll.NumbersOfHits` | indexer/run_check.go:58-68 | the numbers the scan sees are those of the documents that decode |
| `CheckIndex.Bulk.InsertBlocksInRange` | indexer/bulk.go:34-45 | the unsigned descending loop ends, also for from = 0, and sends the whole range, from last; for from > to only from |
| `CheckIndex.RangeSends` | indexer/bulk.go:37-44 | a range sends each of its heights once, downwards, each to its height modulo the miners and the lowest to channel 0 |
| `CheckIndex.RangeSpread` | indexer/bulk.go:37-44 | the numbers of heights that two channels get from one range differ by at most two |
| `CheckIndex.DispatchExact` | indexer/run_check.go:55-89 | for numbers in non-increasing order, duplicates allowed: the heights sent are strictly decreasing, are exactly the missing ones of the range (above the lowest indexed one over startFrom if startFrom is indexed), and go to the channels named |
| `CheckIndex.ScanExact` | indexer/run_check.go:58-84 | the same from any point of the scan on, given what has been taken in and sent so far |
| `CheckIndex.ScanIndex` | indexer/run_check.go:32-93 | the scan over the cursor sends those heights in that order, the final missingBlocks is their number, and no range is dispatched with from above to |
| `CheckIndex.DispatchGap` | indexer/run_check.go:79-83 | the heights between two indexed ones are sent and counted, without wrap |
| `CheckIndex.DispatchLast` | indexer/run_check.go:86-89 | what remains down to startFrom is sent and counted, unless startFrom was seen last |
| `CheckIndex.FixIndex` | indexer/run_check.go:95-103 | every height of the range is sent, downwards; of an empty range startFrom alone |
| `CheckIndex.Check` | indexer/run_check.go:13-30 | without an upper end the range ends below the node's best block; the scan's exact dispatch, or with fix the whole range, of an empty one startFrom alone |
| `CheckIndex.DispatchCompleteIff` | indexer/run_check.go:76-89 | all missing heights of the range are dispatched if and only if startFrom is not indexed, is the end, or startFrom + 1 is indexed; with stopAt at the top of the 64-bit range, if and only if none is missing |
| `CheckIndex.GapAboveStartSkipped` | indexer/run_check.go:76-89 | with 5 and 9 indexed, checking 5 to 10 sends 10 only |
| `CheckIndex.PagesDoNotMatter` | indexer/run_check.go:58-84 | two divisions of the same result into non-empty pages lead to the same dispatch, for every startFrom |
| `CheckIndex.UndecodableIsMissing` | indexer/run_check.go:58-68 | the heights dispatched are characterised by the decodable documents of the pages: one that does not decode is missing, startFrom's own included |
| `Recovery.CheckJobs` | indexer/run_check.go:32-93 | a check on a database dispatches each missing height at most once, within the range, to existing channels |
| `Recovery.AttemptKeepsHealth` | indexer/run_check.go:32-93 | a check that dies at any step leaves a consistent database with no account token lost for good and nothing foreign added |
| `Recovery.HistoryKeepsHealth` | indexer/run_check.go:32-93 | so does any number of such checks, each starting with an empty cache |
| `Recovery.CompleteCheck` | indexer/run_check.go:32-93 | a check run to its end indexes the whole range if and only if startFrom was not indexed below a gap |
| `Recovery.RecoveryRefinesCleanRun` | indexer/bulk.go:116-204 | any crashes followed by one complete check leave the same ids in all six indices as one uninterrupted check |
| `Recovery.RecoveryPossible` | indexer/run_check.go:32-93 | after any history of crashes some check runs to its end, without the timer and without claiming a cached id |
| `Recovery.RecoveryFromEmpty` | indexer/run_check.go:32-93 | from an empty database, after any crashes, a check that ends leaves exactly the blocks and documents of the range if and only if it found no gap above an indexed startFrom |
| `Fix.CompleteFix` | indexer/run_check.go:95-103 | a fix that ends leaves every block and document of the range in the database, account tokens included, whatever was missing |
| `Fix.FixKeepsTokensIff` | indexer/run_check.go:95-103 | whatever the number of miners, buffer sizes and schedule, a fix that dies keeps account tokens recoverable if and only if those of every committed height of the range are there or owed by a height outside it |
| `Fix.CheckThenFixLosesToken` | indexer/dto.go:68-79 | an instance from an empty database: a check dies in a healthy state, and a fix of the same range that dies can lose an account token |
| `OnSync.Indexer.SleepStream` | indexer/run_onsync.go:101-134 | asleep, every answer has been above blockNo and above those before it; the first that is not ends the sleep, and lastHeight becomes it |
| `OnSync.WakesAtIff` | indexer/run_onsync.go:116-131 | the poll that wakes is the first whose answer does not exceed the greatest height seen |
| `OnSync.Indexer.SyncBlock` | indexer/run_onsync.go:29-63 | rewind, gap fill, mining or sleep for one block; the block itself is sent and becomes lastHeight exactly when the clock does not ask, the query fails or the database's best is below it |
| `OnSync.ReactionIs` | indexer/run_onsync.go:31-62 | without sleep a block above lastHeight sends each height up to itself once and in order, and a lower one deletes what is above it |
| `OnSync.FollowStream` | indexer/run_onsync.go:65-77 | a run of blocks whose probes, whatever they answer, do not put the stream to sleep acts as the reactions to the single blocks one after the other |
| `OnSync.SyncCoverage` | indexer/run_onsync.go:29-63 | over any run without sleep, with b the least of the initial lastHeight and the rewind targets, every height in (b, lastHeight] is dispatched and not deleted since, and nothing above lastHeight is |
| `OnSync.NothingBelowFloor` | indexer/run_onsync.go:29-63 | below the top of the 64-bit range nothing under b is dispatched either |
| `OnSync.ReactionCovered` | indexer/run_onsync.go:29-63 | one block keeps that coverage, with b lowered to the block if it is a rewind |
| `OnSync.SleepRises` | indexer/run_onsync.go:116-134 | the remembered best height never decreases during a sleep |
| `OnSync.SleepThenSync` | indexer/run_onsync.go:39-62 | after a sleep the next block above the wake-up height sends every height between, and itself unless the database's best reaches it |
| `StartAll.NoHoleIff` | indexer/indexer.go:98-104 | every height from startFrom to lastHeight is always indexed, sent by the check, sent by the stream or in the gap directly above an indexed startFrom, if and only if there is no upper end, or one from the stream's first height on below the top of the 64-bit range, or startFrom is at least the best block |
| `StartAll.HoleBelowStream` | indexer/run_check.go:16-23 | under the negation, on an empty index, a height below the stream is left to nobody |
| `StartAll.NoHoleWithFixIff` | indexer/run_check.go:95-103 | with fix every such height is sent by the check or the stream, if and only if there is no upper end, or one from the stream's first height on, or startFrom is at least that height |
| `Together.StreamIndexes` | indexer/miner.go:40-48 | a height the stream's miner has finished is in the database for good, with all its documents |
| `Together.BothCrashConsistent` | indexer/indexer.go:100-104 | while the chain does not rewind, wherever the stream's miner and the check's pipeline are stopped, a block in the database has all its documents there |
| `Rewind.RunKeeps` | indexer/run_onsync.go:137-151 | every step of stream, deletes and miner keeps the invariant on heights, document numbers and completeness |
| `Rewind.RewindSafe` | indexer/run_onsync.go:25-36 | at every point, between deletes included, only a block that the miner held when a rewind deleting it began can be incomplete or lie above lastHeight, and each rewind finds at most one |
| `Rewind.IdleRewindsKeepBlocksComplete` | indexer/run_onsync.go:145-150 | with an idle miner a block has all its documents at every intermediate point of the deletes |
| `Rewind.RewindSpares` | indexer/run_onsync.go:137-151 | whatever follows a rewind up to the next block, blocks and documents at or below its target stay, and so do events, contracts and account tokens |
| `Rewind.RewindExact` | indexer/run_onsync.go:145-150 | the six deletes by themselves remove exactly the blocks above the target up to lastHeight and, with those numbers, the transactions, names, token transfers, tokens and NFTs |
| `Rewind.ReceiveSends` | indexer/run_onsync.go:39-61 | a block above lastHeight sends every height from there up to itself to the miner, once and in order |
| `Rewind.RewindHoldsIff` | indexer/run_onsync.go:29-36 | whatever follows a rewind up to the next block leaves nothing above its target, if and only if, when it begins, the miner holds nothing above the target and the index has nothing above lastHeight |
| `Rewind.RewindLosesNothingIff` | indexer/run_onsync.go:145-150 | and no block ever lacks a document, if and only if, when it begins, none does, what the miner has inserted is there or still to be inserted again, and the miner's block, if in reach of the deletes, has no document in an index they go through |
| `Rewind.BusyRewindLosesTx` | indexer/run_onsync.go:25-36 | an instance: a block reappears above lastHeight without its transaction |
| `Cache.Cache.MinerTokenVerified` | indexer/miner.go:301-338 | field by field: clears the prior contract when it changes, marks the new one with token, details and transfer count, keeps the prior address when a document is missing, and touches no other document |
| `Cache.Cache.MinerContractVerified` | indexer/miner.go:340-404 | clears the prior contract, passes over one whose code URL is unchanged, and otherwise stores token, URL and the code fetched, verified when there is some; touches no other document |
| `Cache.Cache.VerifyEntries` | indexer/cache.go:69-86 | over the mixed scroll token documents go through the turns of the token entries and contract documents through those of the contract entries, each entry judged on the address the refresh began with |
| `Cache.Cache.RefreshVariables` | indexer/cache.go:66-90 | the changed entries of both types are written back, in any order; no entry changes its type or disappears |
| `Cache.Cache.RegisterVariables` | indexer/cache.go:39-56 | every token document, and then every contract document, that carries a token address is listed for it, the last one delivered winning |
| `Cache.RefreshKeepsAttribution` | indexer/cache.go:66-90 | after every refresh a document of either type that carries t is what the whitelist lists for t |
| `Cache.RegistrationAttributesIff` | indexer/cache.go:39-56 | registration establishes that for contract documents if and only if no two carry the same token address, and for token documents if and only if no two do and none shares it with a contract document |
| `Cache.ResetAttributesIff` | indexer/miner.go:139-156 | a verification event of either type, which resets its entry, keeps it for one type if and only if no document of that type carries that token |
| `Cache.TwoRefreshesSettle` | indexer/cache.go:66-90 | two refreshes of the shared index settle the token entries, whatever happens to the contract entries meanwhile |
| `WhitelistTheorems.RefreshKeepsAttribution` | indexer/cache.go:66-90 | after every refresh of the token entries a token document carrying t is the contract the whitelist records for t, whatever the metadata and whichever documents are missing |
| `WhitelistTheorems.TwoRoundsSettle` | indexer/cache.go:66-90 | with stable metadata, documents present and distinct targets, two refreshes mark every whitelisted token's contract Verified with that token |
| `WhitelistTheorems.FurtherRoundsIdle` | indexer/cache.go:66-90 | later refreshes change neither whitelist nor status, token address and details of any document |
| `WhitelistTheorems.MarkedUnlessGivenUp` | indexer/miner.go:301-338 | after one refresh a target is marked, or cleared if a later entry gave it up |
| `WhitelistTheorems.RefreshedFields` | indexer/miner.go:301-338 | the same field by field: status, token, details and transfer count |
| `WhitelistTheorems.SettledFields` | indexer/miner.go:329-333 | and after the second refresh, with the transfer count of that one |
| `WhitelistTheorems.OneRoundSettlesIff` | indexer/cache.go:66-90 | one refresh marks all if and only if no later entry of the scroll gives up a contract an earlier one has taken over |
| `WhitelistTheorems.ChainNeedsTwoRounds` | indexer/miner.go:301-338 | the chain t1: A to B, t2: B to C, in this order, is not settled by one refresh |
| `ContractVerified.CallsKeepAttribution` | indexer/miner.go:340-404 | any calls for any entries keep: a document carrying t is the contract the whitelist records for t |
| `ContractTheorems.RefreshKeepsAttribution` | indexer/cache.go:66-90 | so does every complete refresh, whatever the metadata, whatever is fetched and whichever documents are missing |
| `ContractTheorems.PassTarget` | indexer/miner.go:340-404 | in one refresh a token's target is cleared if a later entry gives it up, and else is what its own turn makes of it, cleared before if an earlier entry gave it up |
| `ContractTheorems.SettledRounds` | indexer/miner.go:363-369 | once the entries name their targets, further refreshes change no entry, and the first fetch stays where there is a URL, the last where there is none |
| `ContractTheorems.DecidingFetch` | indexer/miner.go:363-375 | after two or more refreshes of all entries with stable metadata, documents present and distinct targets, every target is what the deciding fetch made it, or what it was if none decides |
| `ContractTheorems.DecidedFields` | indexer/miner.go:363-400 | the same field by field: verified if code was fetched, the token, the URL and that code |
| `ContractTheorems.VerifiedIffDecidingFetch` | indexer/miner.go:363-375 | it is verified if and only if that fetch brought code, or, if none decides, it was verified |
| `ContractTheorems.TwoRoundsAttribute` | indexer/cache.go:66-90 | two refreshes make every target carry its token |
| `ContractTheorems.OneRoundAttributesIff` | indexer/cache.go:66-90 | one refresh does if and only if no later entry gives the target up |
| `ContractTheorems.GivenUpIsFetchedAgain` | indexer/miner.go:344-369 | an instance: a failed fetch, the contract given up afterwards, and the same URL fetched again |
| `Upserts.Db.AddNFT` | indexer/dto.go:112-127 | the stored document is replaced by a later block's only, others are untouched |
| `Upserts.Db.AddAccountBalance` | indexer/dto.go:81-99 | balances are replaced, block number and timestamp never go back, an unknown account appears with a positive balance only |
| `Upserts.Db.AddNFTs` | indexer/dto.go:112-127 | of one id's documents the first processed with the greatest block number is stored |
| `Upserts.NftOrderIrrelevant` | indexer/dto.go:112-127 | with distinct block numbers what is stored does not depend on the order of processing |
| `Upserts.Db.AddAccountBalances` | indexer/dto.go:81-99 | stored if and only if some balance was positive, with the last balances and the latest block's number and timestamp from there on |
| `Upserts.StoredBalanceIs` | indexer/dto.go:81-99 | what folding the calls over any sequence stores, described by positions in the sequence |

## Left out

- The node, the search database and HTTP: the node is a fixed function from heights to documents, the database is sets and maps of documents. Connections, query building, index mappings, generated protobuf code and the command line are not part of this model.
- Errors of a bulk commit, which re-enter StopBulkChannel, and a timer that sends on a closed channel.
- Missing receipts where the code dereferences them, and a failed best-block query, which answers 0.
- The timer's clock and `return_flag`: a Commit from the timer may arrive whenever the block writer receives, a finite number of times. Races on `total` and `return_flag` are not modelled: in the pipeline `total` is the length of the buffer, and `BulkIndexer` proves that it is.
- The block writer, miners, dispatcher and their channels as concurrent objects: they are a transition system, because what is proved is about their interleavings. A dependent writer is a class as well.
- Load and Store of the account-token cache are separate calls: a claim needs no absence of the id, which allows more than the code.
- Bulk commits are written document by document in any order, which allows more than one request does. In the pipeline a document is its index and id; contents are in `BulkIndexer`.
- The block document is identified with its height, in the pipeline and in recovery. Blocks that do not decode count as missing in the gap finder, and mining them again does not replace them.
- The lower and upper bound of the scroll's query, which are left out of the query when they are 0: the scan is proved for any numbers in non-increasing order.
- Logging, waiting and retrying, and the streams being reopened.
- Rewinds deeper than 1000 blocks, which close the stream (indexer/run_onsync.go:139-142), and errors of a delete.
- Together.BothCrashConsistent: rewinds beside a running check, whose deletes the pipeline does not see.
- A sleep in the rewind model, and ids that are shared between heights or between two forks of one height there.
- `addNFT` and `addAccountBalance` select and then write; each is one step here. Amounts are `real`.
- Token, name, NFT and balance documents that a miner writes directly, without the bulk writers.
- Parsing of events, payloads and metadata, categories, base58 and number formats of addresses: an event is given by its parsed form.
- Cache.Cache.RefreshVariables: the balance part of the refresh, and a registration or an event during one.
- BulkIndexer.DocIndexer.CommitBulk: for the five dependent writers; the block writer's barrier inside the same function is proved on the transition system.
- `cleanIndex`, whose call is commented out.
- BulkRefinement.AddRefines: for the five dependent writers; the block writer's barrier is proved on the transition system itself.
- Scroll.EsScrollInstance.Next: block numbers only, the rest of a document is not carried.
- Recovery.CompleteCheck: for startFrom <= stopAt below the top of the 64-bit range; otherwise a check dispatches nothing (CheckIndex.DispatchExact).
