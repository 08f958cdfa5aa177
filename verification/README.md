# A verified model of a proof-of-authority blockchain node

This Dafny 4.11 project models the three connected cores of a small
proof-of-authority blockchain node written in Go, and proves what they keep.

* **The ledger.** `ExecuteNow` runs a block's calls against live account objects
  in memory. A failed call, and later a rejected block, is undone by reading its
  accounts back from storage; an accepted block is pushed down to storage. Memory
  and storage are therefore two versions of one ledger that may differ on the
  accounts a block has worked on, and calls mutate accounts in place before they
  fail.
* **Block agreement.** A committee chosen by key hash and height produces,
  verifies, votes on and finalises one block per round. Finality and the sync loop
  append to the same hash chain.
* **Authenticated data.** A level-by-level Merkle builder, a state hash that must
  not depend on the order of a Go map, power-of-two helpers on 64-bit words, a
  mempool that cuts power-of-two blocks, and a flat key/value bucket that encodes a
  chain together with its indexes.

## How it is built

Whatever the source updates in place is a class whose methods carry `modifies`
clauses and are proved against a specification function on values; what the source
promises is then proved about those functions.

| files | contents |
|---|---|
| `Common`, `Records` | machine words, bytes, the records, and the opaque codecs |
| `PowersOfTwo`, `Sorting`, `Merkle`, `StateHash` | arithmetic, sorting, hashing |
| `Ledger`, `Conservation`, `Calls` | what a call, a block, a revert and a commit mean; money; exactly when a call succeeds |
| `Accounts`, `MemoryDb`, `Storage`, `Executer` | the ledger on the heap |
| `Blockchain`, `Blocks`, `ChainStore` | counters, block hashes, the bucket as a chain |
| `Runs`, `History`, `Node` | one node over whole runs; replay, restart; the node on the heap |
| `Sync` | serving blocks, receiving them, and the sync loop |
| `Mempool`, `NonceOrder` | cutting blocks, draining the pool, nonce order |
| `Consensus`, `Network`, `Rounds`, `Deliveries` | one consensus service; several of them with messages in flight; what every delivery keeps |
| `Agreement`, `Refinement`, `Progress`, `Replication` | chains never fork; each node of the network lives one node's run; a round ends; what a common start adds |
| `Channels` | the bounded request queue in front of memory |

SHA3 is an arbitrary function to 32-byte strings (`Codec.sha3`). Its injectivity
is never assumed: binding results either conclude equality or exhibit two
different byte strings with one digest. JSON is asked only to read back what it
wrote (`Codec.RoundTrips`). Base58, which the source applies to keys and hashes
before using them as map keys, is injective and is left out of the map types.

The agreement theorems start from any ledgers whose chains do not fork, with anything
in memory and storage, on every node something else; so votes may differ, blocks may
be rejected, and a node that voted no may push the accounts of a block it does not
store. `Agreement.VotesByState` says when a node votes yes. From the narrower common
start of `Replication` (everybody new, or on one genesis) none of that happens, and
every round stores its block on every node.

Main results, in the order of the list above:

* `Ledger.RejectRestoresExactly`, `Conservation.BlockConserves`,
  `Runs.RunsKeepAgreement`, `Runs.RunsAccount`, `Calls.TransferExactly`, `Executers.Executer.ExecuteNow`
* `Agreement.ChainsNeverFork`, `Agreement.NodesFinaliseOwnVotes`,
  `Progress.RoundTakesExactly`, `Replication.NodesReplicate`,
  `Replication.RoundStoresEverywhere`, `Refinement.NodesLiveRuns`, `Runs.ProducedIsAcceptable`,
  `Runs.RunsKeepChain`, `History.ReplayEqualsLive`, `Sync.SyncRunExtends`,
  `Sync.SyncRunReplays`, `Consensus.TallyExact`, `Consensus.NextCommittee`
* `StateHash.OrderDoesNotMatter`, `StateHash.StateRootBinds`, `Agreement.YesVotersAgree`, `Merkle.RootsBind`, `Blocks.TipHashCoversChain`,
  `PowersOfTwo.BitTestExact`, `Mempools.PoolDrain`, `NonceOrder.CutIsNonceSafe`,
  `ChainStore.ByIndexRefinesChain`, `Channels.BatchCompletesExactly`

## Where the code does less than it seems to

Each of these is proved, with the exact condition under which the expected
property does hold.

* A failed call restores the *stored* accounts, not those from before the call. If
  its block had already paid from one of them, money appears
  (`Conservation.FailureCanMint`). Conservation holds exactly when the drifts of
  the failing calls cancel (`Conservation.BlockTotal`), in particular when
  failures stay apart from the accounts already worked on; and along every run the
  stored total is the initial supply plus those drifts (`Runs.RunsAccount`).
* A rejected block leaves zero accounts in memory for keys that were absent. They
  count in the state hash, so memory is restored exactly if and only if every
  touched account was present (`Ledger.RejectRestoresExactly`), and otherwise no
  replay of the node's chain can reproduce its state
  (`History.RejectedRoundReplays`).
* `Status` is set to true after the branch that sets it to false
  (executers/executer.go lines 128-131), so a failing call ends up true
  (`Ledger.FailureEndsTrue`). A status tells whether its call had an error if and
  only if the call had none, or was passed over with the status already true
  (`Ledger.StatusExactly`).
* The transactions and the author of genesis are covered by no hash: with others in
  their place the chain is linked and sealed as before (`Blocks.GenesisBodyUncovered`),
  and that author owns the initial supply (`Runs.ReauthoredSupply`). Everything else
  that is hashed is bound by the tip's hash (`Blocks.TipHashCoversChain`).
* After a restart the slot is computed from the height cut to 32 bits, which
  agrees with counting block by block if and only if the height's upper half is a
  multiple of 15 (`Blockchains.RestartKeepsCounters`).
* `IsPowerOf2` also accepts the most negative `int`; `NextPowerOf2` does not
  return above 2^62 and `LastPowerOf2` does not from 2^62 on.
* A batch of twelve or more keys sent to memory before the first reply is read
  gets stuck on every schedule (`Channels.BatchCompletesExactly`).
* A comment in `aggregate` says the producer always votes yes; the code does not
  count a producer's vote at all. The model follows the code: the outcome is a
  strict majority of the other n - 1 votes (`Consensus.MajorityTest`).
* `get(1)` on a larger pool returns the whole pool unsorted (`Mempools.Mempool.Get`);
  `GetTxsForBlock` never asks for one transaction of a larger pool.

## Model

| member | source | states |
|---|---|---|
| AccountObjects.AccountState.Subtract | accounts/account.go:21-28 | refuses exactly when the amount exceeds the balance, and then changes nothing |
| AccountObjects.AccountState.Add | accounts/account.go:30-38 | on unsigned words, wrap-around included; from a balance within the initial supply the sum is exact and stays within it |
| AccountObjects.AccountState.CheckNonce | accounts/account.go:40-46 | accepts exactly the current nonce and bumps it only then |
| Ledger.AttemptFrame | executers/executer.go:204-309 | a call changes only the accounts it touches; a failing one adds none to memory; after a successful one memory holds them all |
| Ledger.FailureUndone | executers/executer.go:123-127 | whatever a call mutated before it failed, after the revert memory is as if only the fetch had happened |
| Ledger.BoundaryAgreement | executers/executer.go:80-134 | at every transaction boundary memory and storage agree on every key outside `executed` |
| Ledger.FinalityAgreement | executers/executer.go:136-154 | finality either way leaves memory and storage in agreement on every key |
| Ledger.RunDomain | executers/executer.go:156-166 | executing a block enters every touched account into memory, failing calls included |
| Ledger.RejectRestoresExactly | executers/executer.go:136-166 | a rejected block restores memory, domain included, if and only if every touched account was in memory before |
| Ledger.RunIgnoresStatus | executers/executer.go:80-134 | execution does not depend on the statuses it writes |
| Ledger.StatusExactly | executers/executer.go:123-131 | a status says whether its call had an error if and only if the call had none, or was passed over with the status already true; execution writes nothing else into a transaction |
| Ledger.FailureEndsTrue | executers/executer.go:123-131 | a failing call whose status ends up true |
| Ledger.MarkAllIdempotent | executers/executer.go:128-131 | executing again writes the same statuses, so the transaction hash is stable |
| Calls.CallsThatRun | rpc/rpc_kind.go:26-53 | a call runs as an airdrop or a transfer if and only if it and its parameters decode and its amount is above zero and below the initial supply |
| Calls.TransferExactly | executers/executer.go:274-309 | a transfer succeeds if and only if the caller is in memory with the call's nonce, the receiver is in memory, the caller has the amount and the receiver room for it; it moves exactly the amount, a payment to oneself only the nonce |
| Calls.AirdropExactly | executers/executer.go:204-239 | an airdrop succeeds if and only if the faucet is there and in memory, the call carries its caller's nonce, the faucet has the amount and the caller room for it; it moves exactly the amount from the faucet to the caller |
| Calls.ExecutedExactly | executers/executer.go:168-202 | the keys handed to finality are, each once, those touched by calls that had no error |
| Calls.CommittedExactly | storage/storage_service.go:156-193 | finality writes memory's version of those accounts, and no other account |
| Conservation.PayConserves | executers/executer.go:222-238 | subtract, add and the two puts keep the total balance, also when payer and receiver are one object |
| Conservation.AttemptConserves | executers/executer.go:204-309 | every successful airdrop or transfer keeps the total balance |
| Conservation.OverflowUnreachable | executers/executer.go:227-232 | while memory's total is within the initial supply the overflow error after a successful Subtract cannot occur |
| Conservation.RunBounded | accounts/account.go:30-38 | no balance exceeds the initial supply during a block, so the subtraction in Add never wraps |
| Conservation.TotalRefetch | storage/storage_service.go:117-154 | what re-reading accounts from storage does to memory's total |
| Conservation.BlockTotal | executers/executer.go:80-134 | a block changes the total by exactly the drift of its failing calls |
| Conservation.BlockConserves | executers/executer.go:80-166 | from agreement, a block keeps the total if and only if those drifts cancel, in particular when failures stay apart from executed accounts; a rejected block always restores the stored total |
| Conservation.FailureCanMint | executers/executer.go:123-127 | the hypothesis is needed: a payment followed by a failing call of the same payer adds ten |
| Executers.Executer.Pay | executers/executer.go:222-238 | the heap version of the payment, aliasing allowed, computes the specified outcome |
| Executers.Executer.AirdropImpl | executers/executer.go:204-239 | memory's contents and the error are those of the specification, mutations before a failure included |
| Executers.Executer.TransferImpl | executers/executer.go:274-309 | the same for transfers; when they succeed is stated in Calls.TransferExactly |
| Executers.Executer.ExecuteAirdrop | executers/executer.go:168-202 | records the touched accounts as executed on success and as dirty on failure |
| Executers.Executer.ExecuteTransfer | executers/executer.go:241-272 | the same for transfers |
| Executers.Executer.Revert | executers/executer.go:156-166 | memory takes the stored version, or zero, of every dirty account |
| Executers.Executer.ExecuteNow | executers/executer.go:80-134 | memory, executed keys and statuses after a whole block are those of the specification, storage untouched |
| Executers.Executer.Finalize | executers/executer.go:136-154 | pushes the executed accounts to storage, or fetches them back |
| Executers.PublicKeys.Add | executers/executer.go:42-48 | keeps keys in first-use order without repetition |
| MemoryDbs.MemoryDb.Put | memory/memory_db.go:55-65 | changes one entry of the account map and keeps every object under one key |
| MemoryDbs.MemoryDb.Get | memory/memory_db.go:67-73 | hands out the stored object itself, or a fresh zero account |
| MemoryDbs.MemoryDb.GetMerkleNodes | memory/memory_db.go:75-113 | whatever order the map is walked in, the nodes are its sorted, padded leaf list |
| MemoryDbs.MemoryDb.GetStateHash | memory/memory_service.go:105-112 | returns the state hash of the account map, a function of its contents alone that StateHash.StateRootBinds binds to them |
| StateHash.LeafListUnique | memory/memory_db.go:75-113 | the sorted leaf list depends neither on the walk nor on how the sort breaks ties |
| StateHash.OrderDoesNotMatter | memory/memory_db.go:75-113 | any two walks and sorts of one map give the same padded leaves and the same root |
| StateHash.StateRootOfRaws | memory/memory_db.go:31-41 | the state hash is the Merkle root of the key bytes and account JSON of every account, sorted by digest and padded |
| StateHash.StateRootBinds | memory/memory_db.go:31-41 | two different account maps with one state hash yield two different byte strings with one digest, unless the padding leaf can pass for an account or, for different leaf counts, a leaf for an inner node |
| Sorting.SortFunc | memory/memory_db.go:92-98 | returns a sorted permutation |
| Sorting.SortedArrangementUnique | memory/memory_db.go:92-98 | a sorted arrangement of a multiset is unique when equal ranks mean equal elements |
| Storage.ToHexInjective | common/shortcut.go:9-16 | different heights have different index bytes |
| Storage.Bucket.Put | storage/storage_db.go:52-81 | writes the content and its three references |
| Storage.Bucket.GetByIndex | storage/storage_db.go:93-102 | reads through the entry that holds the key |
| Storage.FaucetWritten | storage/storage_db.go:52-81 | the references that come with the faucet's account never read as accounts, because key lengths differ |
| Storage.StorageService.FetchAccounts | storage/storage_service.go:117-154 | memory takes the stored version, or zero, of each key and nothing else changes |
| Storage.StorageService.PushAccounts | storage/storage_service.go:156-193 | succeeds exactly when memory holds every key, and otherwise writes nothing |
| Storage.StorageService.FetchAllAccounts | storage/storage_service.go:85-115 | lays every stored account, and no reference, over memory |
| Merkle.PairingKeepsTree | common/merkle/merkle_tree.go:50-60 | one round of pairing neighbours does not change the recursively halved tree |
| Merkle.BuildUp | common/merkle/merkle_tree.go:50-60 | the nested loops compute the recursively halved tree |
| Merkle.NewMerkleTreeFromRaw | common/merkle/merkle_tree.go:39-62 | fails exactly when the leaf count is not a power of two |
| Merkle.InRangeExactly | common/merkle/merkle_tree.go:64-76 | the index j+1 is in range in every round if and only if the node count is a power of two |
| Merkle.TreeHeight | common/merkle/merkle_tree.go:50-60 | 2^k leaves give a tree of height k |
| Merkle.RootsBind | common/merkle/merkle_tree.go:20-62 | equal roots mean equal leaves, or two different byte strings with one digest are computed |
| PowersOfTwo.BitTestExact | common/shortcut.go:41-43 | the bit test is exact on positive words and accepts one negative one |
| PowersOfTwo.NextPowerOf2 | common/shortcut.go:45-54 | returns the least power of two that is at least n, for n up to 2^62 |
| PowersOfTwo.NextSearchStops | common/shortcut.go:45-54 | the search can stop if and only if n is at most 2^62 |
| PowersOfTwo.LastPowerOf2 | common/shortcut.go:56-68 | returns the greatest power of two that is at most n, for n below 2^62 |
| PowersOfTwo.LastSearchStops | common/shortcut.go:56-68 | the search can stop if and only if n is below 2^62 |
| Blockchains.Blockchain.Init | blockchain/blockchain.go:27-32 | restores the counters from a height, with the slot taken from its lower 32 bits |
| Blockchains.Blockchain.Increment | blockchain/blockchain.go:34-53 | moves height, slot and epoch on by one block |
| Blockchains.StepwiseCounters | blockchain/blockchain.go:34-53 | height is 30 times the epoch plus the slot, all along |
| Blockchains.RestartKeepsCounters | blockchain/blockchain.go:27-32 | Init agrees with counting block by block if and only if the upper half of the height is a multiple of 15 |
| Blocks.HashTransactions | txs/bundle.go:15-34 | an error exactly for bundles whose length is not a power of two, otherwise the Merkle root of the encodings |
| Blocks.HashBlock | blocks/block.go:50-64 | hashes transaction root, previous hash and state hash |
| Blocks.HashCoversBlock | blocks/block.go:50-64 | one hash, two contents: a collision is computed |
| Blocks.TipHashCoversChain | blocks/block.go:50-79 | chains of one length with one tip hash hold the same transactions, previous hashes and state hashes above genesis and the same previous hash and state hash in genesis, or a collision is computed |
| Blocks.GenesisBodyUncovered | genesis/genesis.go:43-82 | giving genesis other transactions and another author changes no hash, and the chain stays linked and sealed |
| Blocks.HashesDoNotRepeat | blocks/block.go:50-64 | two blocks of one chain with one hash yield a collision |
| ChainStore.ByKeyRefinesChain | storage/storage_db.go:83-91 | by key the bucket answers the newest block with that hash |
| ChainStore.IndexEntry | storage/storage_db.go:93-102 | the index entry of a height holds that block's hash, and there is none above the tip |
| ChainStore.ByIndexRefinesChain | storage/storage_db.go:93-102 | by index the bucket answers the block at that height, or a collision is computed from the chain |
| ChainStore.LatestRefinesChain | storage/storage_db.go:124-133 | latest is the tip of the chain |
| Runs.ProducedIsAcceptable | executers/block_producer.go:50-120 | a node with the producer's view accepts what NewBlock built, and both end up with the same memory and storage |
| Runs.ProducedNames | executers/block_producer.go:50-85 | a produced block names the next height, the tip, its author, signature and time, and holds the very calls it was cut for |
| Runs.SameBlockSameState | executers/block_producer.go:138-147 | whoever accepts a block ends its execution with the same accounts, or a collision is computed |
| Runs.RunsKeepChain | nodes/sync/sync_service.go:118-248 | over any run of rounds, synced blocks and restarts the stored chain is linked and sealed and the counters are its length and its tip's hash |
| Runs.RunsKeepBounds | common/constants.go:12 | in every reachable state every balance is within the initial supply |
| Runs.RunsKeepAgreement | nodes/sync/sync_service.go:177-214 | between rounds memory and storage agree in every run in which no synced block fails after executing |
| Runs.DirtyExactly | nodes/sync/sync_service.go:177-214 | a synced block that fails after executing changes memory only, and leaves it in agreement with storage if and only if its calls left every executed account as stored |
| Runs.GenesisSupply | executers/faucet.go:27-70 | storing genesis creates exactly the initial supply |
| Runs.ReauthoredSupply | executers/faucet.go:27-70 | the whole supply belongs to whoever genesis names as its author, which no hash covers |
| Runs.RunsAccount | executers/executer.go:80-166 | over every run in which no synced block fails after executing, the stored total is the initial supply plus the drifts of the failing calls in the accepted blocks |
| Runs.RunsKeepSupply | executers/executer.go:80-166 | so it is the initial supply while the failures of the accepted blocks stay apart, whatever blocks are rejected |
| Runs.VerifiedInSteps | executers/block_producer.go:87-120 | a verifier's round is its execution followed by its finality |
| Runs.ProducedInSteps | executers/block_producer.go:50-85 | a producer's round, in which the block verifies itself, is its execution followed by its finality |
| History.StoredBlockSyncs | nodes/sync/sync_service.go:177-237 | storing a block through finality and syncing the stored block are the same step |
| History.ReplayEqualsLive | nodes/sync/sync_service.go:177-237 | a fresh node that syncs a live node's chain passes every check and ends in the live node's state |
| History.RejectedRoundReplays | executers/executer.go:156-166 | after a rejected round the chain still replays to the node's state if and only if every touched account was in memory |
| History.RunsKeepCount | nodes/node.go:125-142 | along every run the counters are those of counting blocks and the faucet pays from genesis' account |
| History.RestartRestores | nodes/node.go:82-123 | a restart restores every balance and nonce, the chain, the height and the previous hash; epoch and slot under an exact condition |
| History.GenesisDirectory | genesis/genesis.go:43-82 | a node started on a generated directory stands where one stands that synced genesis |
| Nodes.PendingBlock.SetHash | blocks/block.go:50-64 | seals the block, or fails exactly for a bundle that cannot be hashed |
| Nodes.Node.CheckHashes | executers/block_producer.go:138-173 | state hash and block hash are compared with what the node itself has; the one error case is an unhashable bundle over the right state |
| Nodes.Node.Verify | executers/block_producer.go:87-120 | a block that does not fit changes nothing; any other is executed and then judged |
| Nodes.Node.NewBlock | executers/block_producer.go:50-85 | executes and seals; an unhashable bundle fails after it was executed |
| Nodes.Node.Finality | nodes/sync/sync_service.go:118-137 | what the two finality channels do to accounts, chain and counters |
| Nodes.Node.VerifierRound | consensus/handlers.go:52-80 | a verifier's round on the heap is the step of the run model |
| Nodes.Node.ProducerRound | consensus/consensus_service.go:382-405 | a producer's round on the heap is the step of the run model |
| Nodes.Node.InitFaucet | executers/faucet.go:27-70 | puts the generator's account unless there is one, and remembers the generator |
| Nodes.Node.StoreGenesisBlock | nodes/node.go:125-142 | storing genesis on the heap is the step of the run model |
| Nodes.Node.SyncOne | nodes/sync/sync_service.go:177-237 | one block of the sync loop on the heap is the step of the run model, failures included |
| Nodes.Node.Run | nodes/node.go:82-123 | what a start rebuilds from storage |
| Sync.SyncRunExtends | nodes/sync/sync_service.go:139-248 | the loop leaves a valid chain of checked blocks extending the old one by the answers in height order; it succeeds exactly when it stands right above the target |
| Sync.SyncRunStores | nodes/sync/sync_service.go:163-237 | the block stored at a height is the answer received for that height |
| Sync.SyncRunEnds | nodes/sync/sync_service.go:163-248 | why a sync ends: it stands above its target, or the next answer timed out, was an error, was refused, or could not be hashed |
| Sync.SyncRunReplays | nodes/sync/sync_service.go:139-248 | a sync whose answers are a peer's blocks replays that peer's chain |
| Sync.SyncService.HandleBlockReq | nodes/sync/sync_service.go:346-390 | answers out of the bucket by the index of the height, with the unsigned subtraction of the height check |
| Sync.ServesItsChain | nodes/sync/sync_service.go:346-390 | a node serves exactly the heights of its chain, each with the block stored there, or a collision is computed |
| Sync.ServedAsStored | nodes/sync/sync_service.go:305-343 | a served block is received as it was stored, and admitted if it is genesis or authentic, not empty, signed and timed |
| Sync.SyncService.StartSync | nodes/sync/sync_service.go:108-116 | spawns a sync up to the target unless one runs, and marks it running |
| Sync.SyncService.HandleBlockRes | nodes/sync/sync_service.go:305-343 | exactly the block received, field by field, is sent into the channel of its own height if it passes the message checks, for genesis only those of the hash sizes, and that channel is open; nothing else is sent |
| Sync.OffersAreDispatched | nodes/sync/sync_service.go:329-343 | so whatever a channel yields is a block of its own height, which is what the loop relies on |
| Sync.SyncService.Request | nodes/sync/sync_service.go:141-153 | one channel per peer, for consecutive heights, never beyond the target |
| Sync.SyncService.SyncTo | nodes/sync/sync_service.go:139-248 | the loops end and compute the specified run; only an error leaves the syncing flag set |
| Mempools.Mempool.Append | memory/mempool.go:27-31 | files a transaction under its hash |
| Mempools.Mempool.Remove | memory/mempool.go:65-72 | removes exactly the given keys |
| Mempools.Mempool.Get | memory/mempool.go:33-50 | the first n by nonce, nothing when there are fewer, and the whole pool when asked for one |
| Mempools.Mempool.GetTxsForBlock | memory/mempool.go:52-63 | the largest power of two of transactions that fits, lowest nonces first |
| Mempools.CutShrinks | memory/mempool.go:65-72 | removing a cut's keys takes away exactly its transactions |
| Mempools.MarkKeepsKeys | txs/bundle.go:36-43 | the keys of an executed block are those of the transactions it was cut from |
| Mempools.PoolDrain | memory/mempool.go:52-72 | removing the keys of executed blocks empties a pool of n transactions in exactly as many blocks as n has bits set |
| NonceOrder.PrefixContiguous | memory/mempool.go:46-49 | the nonce-sorted prefix holds a nonce prefix of every sender |
| NonceOrder.CutIsNonceSafe | executers/executer.go:80-134 | if no call fails for another reason none fails for its nonce, and every sender's nonce rises by its number of calls |
| NonceOrder.BlockCutIsNonceSafe | memory/mempool.go:52-63 | the same for whatever a block may be cut from a pool whose calls are contiguous for every sender |
| Consensus.GossipAdmits | consensus/handlers.go:103-168 | a peer is listed after its gossip exactly if it stands at the same height, epoch and slot, and then its readiness is recorded as it says; a peer that is ahead starts a sync up to the block below its height; nothing else changes |
| Consensus.GatheredExactly | consensus/handlers.go:103-168 | over any gossip a key is listed if and only if the last of its gossip that counted stood at this node's place, and a peer is recorded as its last such gossip said |
| Consensus.NextCommittee | consensus/consensus_service.go:109-119 | after a settled round the next committee is the node itself and exactly those whose last gossip that counted stood at its place |
| Consensus.CommitteeAgreed | consensus/consensus_service.go:235-259 | the same validators in any arrival order decide the same producer and aggregator at one height |
| Consensus.Rotation | consensus/consensus_service.go:252-258 | over n heights each validator produces exactly once and aggregates just before |
| Consensus.MajorityTest | consensus/consensus_service.go:271-288 | the rounded threshold is the strict majority of the n - 1 votes |
| Consensus.TallyExact | consensus/consensus_service.go:261-289 | between resets finality is broadcast at most once, exactly at vote n - 1, and true exactly on a strict majority |
| Consensus.SettledIsCleared | consensus/consensus_service.go:308-319 | whichever handler settles an outcome, nobody is listed, has a role, is counted or waits afterwards, and the outcome went to the channels there were |
| Consensus.StrangersIgnored | consensus/handlers.go:11-80 | a block from another than the producer and an outcome from another than the aggregator only make their sender bad; a vote from nobody on the list, or to a node that does not aggregate, does nothing |
| Consensus.ProposalHandled | consensus/handlers.go:52-80 | what the producer's block leaves at a node that does not aggregate: the vote, the wait, the channels as far as the block got, and a bad producer if it was refused |
| Consensus.ConsensusService.RemoveFromNextValidators | consensus/consensus_service.go:127-138 | removes the first occurrence |
| Consensus.ConsensusService.DecideCommittee | consensus/consensus_service.go:235-259 | sorts the validators in place by key hash and assigns both roles from the height |
| Consensus.ConsensusService.Aggregate | consensus/consensus_service.go:261-289 | counts a vote and, with the last one, broadcasts and finalises |
| Consensus.ConsensusService.Finalize | consensus/consensus_service.go:308-319 | sends the outcome on whichever channels there are and clears the round, the list of validators included (Consensus.SettledIsCleared); without a receiver nothing happens |
| Consensus.ConsensusService.CastVote | consensus/consensus_service.go:354-380 | starts the timer, then counts or broadcasts the own vote |
| Consensus.ConsensusService.HandleProposeBlock | consensus/handlers.go:52-80 | only the decided producer's block is verified and voted on, and one whose verification ends in an error leaves its channel but neither vote nor wait |
| Consensus.ConsensusService.ProposeBlock | consensus/consensus_service.go:218-228 | the proposal goes out, both channels name the block, and the producer waits for the outcome |
| Consensus.ConsensusService.HandleVote | consensus/handlers.go:11-32 | only the aggregator counts, and only validators' votes |
| Consensus.ConsensusService.HandleFinalize | consensus/handlers.go:34-50 | only the decided aggregator's outcome counts |
| Consensus.ConsensusService.HandleGossip | consensus/handlers.go:103-168 | does on the fields what Consensus.GossipAdmits says of them, and returns the height to sync to |
| Consensus.ConsensusService.Tick | consensus/consensus_service.go:178-233 | which ticks are skipped, and that a node proposes exactly when it may |
| Network.OneNodeRound | consensus/handlers.go:34-80 | whatever block its producer sends, a verifier votes as its own verification says, and with the outcome its ledger takes the verifier's round and its list is empty |
| Network.SettleIsVerified | executers/executer.go:136-154 | settling through the channels of the own verdict is the verifier's round |
| Deliveries.DeliveryKeeps | consensus/handlers.go:11-80 | whatever message is delivered to whomever, the round's invariant and every ledger's stay |
| Agreement.ChainsNeverFork | consensus/consensus_service.go:261-405 | from any ledgers on chains that do not fork, whatever memory and storage hold and however the votes fall, the chains of any two nodes are prefixes one of the other in every reachable state |
| Agreement.VotesByState | executers/block_producer.go:87-120 | a node votes yes exactly if its own execution of the proposed block ends in the state the block claims |
| Agreement.YesVotersAgree | executers/block_producer.go:138-147 | nodes that wait with a yes vote hold the same executed accounts, whatever they held before, or a collision is computed |
| Agreement.NodesFinaliseOwnVotes | consensus/consensus_service.go:308-319 | a node that finalises settles the block it verified itself, with the strict majority of all voters, and adds it only if it voted for it |
| Agreement.QuietMeansDone | consensus/consensus_service.go:321-352 | once no message is on its way nobody is left waiting for an outcome, and after a round nobody is listed for the next |
| Agreement.FinalityNeverBlocks | consensus/consensus_service.go:298-319 | a finality message never finds its receiver without a timer to stop |
| Progress.DeliverySpends | consensus/handlers.go:11-80 | whatever message is delivered to whomever, the round takes exactly one delivery less |
| Progress.RoundTakesExactly | consensus/consensus_service.go:261-405 | a round of n nodes ends after exactly n (n - 1) deliveries on every schedule; until then a message can be delivered and no other round can start |
| Replication.NodesReplicate | consensus/consensus_service.go:261-405 | from a common start every ledger is what its chain replays to, so equal chains mean equal ledgers; every vote is yes and no block is rejected |
| Replication.RoundStoresEverywhere | consensus/consensus_service.go:382-405 | from a common start every round ends with the proposed block stored on every node, and with one ledger |
| Refinement.DeliveryMoves | consensus/handlers.go:11-80 | a delivery moves only its receiver's ledger, and that one as the node's own round does |
| Refinement.NodesKeep | consensus/consensus_service.go:178-233 | whatever every step of a single node keeps, every node of every execution keeps |
| Refinement.NodesLiveRuns | consensus/consensus_service.go:178-233 | from ledgers that single nodes can reach, every node's ledger stays one, so all results on runs hold of it |
| Refinement.NetworkKeepsBounds | common/constants.go:12 | no balance on any node of any execution exceeds the initial supply |
| Channels.StuckStates | memory/memory_service.go:114-198 | the only states in which nothing can move |
| Channels.BatchCompletesExactly | storage/storage_service.go:149-185 | a batch completes on every schedule with its replies in order if it has at most eleven requests, and on every schedule gets stuck with twelve or more |

## Left out

* Sockets, transport, peer discovery, RPC framing, the client, the command line,
  wallet files and log output: plumbing with little state.
* SHA3, Ed25519, base58, JSON and the bucket's on-disk format: opaque, as said
  above; signature checks of messages and blocks are taken to have passed.
* Faults: forged or duplicate votes, dishonest nodes, and what a bad-peer list
  does to later committees. The agreement results are for a fixed honest committee
  of at least two nodes whose keys hash apart.
* Timeouts, peers that leave, and restarts in the middle of a round in the
  agreement model. A timeout calls `finalize`, which sends on the channel that the
  same goroutine was receiving from, so no progress is claimed after one.
* Messages that outlive their round. `handleVote` and `handleFinalize` never read
  the height a message carries, so agreement relies on the slot timing; the model
  lets a new round start only when nothing is in flight, and lets a node propose
  only when every peer has in fact decided.
* Data races between handlers: each handler is one atomic step.
* Channels inside the ledger model: memory's Get and Put are synchronous calls
  there. In particular `transferImpl` returns without reading its second reply when
  the first is an error, which would block the memory service; the bounded queue is
  studied on its own in `Channels`.
* A producer without genesis, whose previous hash would be empty.
* nil keys: public keys and hashes are 32 bytes, as the message checks demand; of a
  genesis answer the source checks the hashes but not the length of the public key.
* Database and codec errors that end the process. The one error that a block can
  cause, a bundle that cannot be hashed, is in the model (`Runs.Halts`): the node
  stops, and what follows is a restart on the storage it had.
* Blocks stored by the sync loop are not removed from the mempool, as in the
  source; `Mempools.PoolDrain` is about finality only.
* `handleTx` and `handleStartBlockProcessing`: easy members.
- Agreement.ChainsNeverFork: states safety for messages delivered within their round only, because the handlers do not check heights.
- Mempools.PoolDrain: assumes no arrivals and every block accepted.
- Nodes.Node.StoreGenesisBlock: the account's timestamp is a parameter, since the clock is not modelled.
- Sync.SyncService.HandleBlockRes: records what is sent into an unbuffered channel and does not model that the send waits for the loop to receive, since handlers are atomic steps here.
