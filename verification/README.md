# Hyperspace consensus, modelled and proved in Dafny

This project models the core of the Hyperspace full node and proves what it is
for: after any run of accepted blocks and reorganisations the consensus set is a
function of its tip, no coin is made or lost except as the supply rules say,
every output and contract is what its id names and moves only by the keys behind
its address, subscribers see every change exactly once and catch up, the binary
forms read back, the block filters never miss an address, and the try-calls of
the read-write mutex never wait and nobody is stuck in it. `dafny verify dfyconfig.toml` checks all of it.

## How the model is laid out

| part | modules |
|---|---|
| records and digests | `Types`, `Hashing` |
| the ledger as map algebra | `Ledger`, `Diffs`, `Validation`, `Admission`, `Signatures`, `Supply` |
| what a transaction and a block keep | `Sums`, `Freshness`, `Conservation`, `BlockEffects`, `Revisions`, `Chain` |
| what a block must change | `Footprint` |
| what ids stand for, and who may spend and revise | `Provenance`, `Authority` |
| the database and the consensus set as objects | `Buckets`, `Storage`, `BlockTree`, `Acceptance`, `Consensus`, `Consistency` |
| weight, difficulty and time | `Targets`, `Difficulty`, `Weights`, `Adjustment`, `Sorting`, `MedianTime` |
| change log and subscribers | `ChangeLog`, `Subscription`, `Replica` |
| binary encoding | `Numerals`, `Wire`, `WireTypes`, `WireRecords`, `WireIds`, `WireBytes`, `WireLimits`, `WireStore`, `Oversized`, `Coders` |
| Golomb-coded filters | `BitStreams`, `GolombCode`, `Gcs`, `BlockFilter` |
| the mutex | `TryRWMutex` |

Three ideas carry the consensus part.

* A block id is symbolic: it contains the block it hashes, and so the whole chain
  below it. `Chain.StateAt(id)` folds the block effects from genesis to that
  block. Path independence is then the invariant "the buckets hold
  `StateAt(tip)`", which `Consensus.ConsensusSet.Consistent` states and every
  method keeps.
* New ids are not assumed to be fresh. `Freshness` proves it: an id could only
  repeat if a transaction were applied twice, and the output its first input
  spends is dead after the first time.
* `Ledger.Effect` says what a block does without diffs, loops or buckets. The
  imperative operations in `Buckets` are proved to have that effect and to record
  diffs that explain it exactly (`Buckets.Recorded`), from which replay and
  revert both follow.

## Assumptions

* Digests are collision-free: two ids are equal exactly when they hash the same
  object under the same specifier (`Hashing.Hash`). `WireIds` proves on the byte
  encodings that the hashed strings of different kinds of ids never coincide.
* Merkle proof verification, signature verification, the keyed hash of the
  filters and digests taken as numbers are parameters (`Validation.Oracle`,
  `Signatures.Verifier`, `Gcs.Hasher`). What a signature hashes is the list of
  objects it covers, not their bytes.
* The stored blocks that a reorganisation reads, read back. A block is stored
  encoded, and getBlockMap drops the error of the decoder, so a block that exceeds
  the decoder's limits comes back cut off (`Storage.Load`; what is left of its
  lists is the parameter `Rules.salvage`). A run is a sequence of calls of
  `ManagedAcceptBlocks`, each on a set that is ready for the batch (`AllReady`):
  when a block of the batch is acceptable and it or a later one can move the tip,
  the blocks above the fork on the old and the new branch read back, and the one
  at the fork decodes (`Legible`). Blocks elsewhere in the tree may be of any
  size, and nothing is asked when the tip does not decode, for then nothing is
  accepted any more. A set whose stored blocks all read back is ready for every
  batch (`Consensus.ReadyForAll`). This is an assumption and not an invariant of
  the code: `Oversized` gives valid blocks that break it,
  `Consistency.ReadableInEveryRun` and `Consistency.LimitsOfValidBlocks` say
  exactly which do. What follows a block that breaks it is in
  `Consensus.ConsensusSet.ValidateHeaderAndBlock` (its children are refused),
  `Consensus.ConsensusSet.AddBlockToTree` (when it is the current block and does
  not decode, adding any block panics), `Consensus.ConsensusSet.RevertUnreadable`
  (what reverting it takes back when its block decodes and its diffs do not, and
  when that is the state of its parent) and `Replica.LostDiffs` (what subscribers
  miss, and when that shows).
* The values in stored diffs are within the decoder's own limits: currencies
  below 2^40000000, contracts that came in transactions of at most 64000 bytes.
* A bolt transaction is a snapshot: when it fails or the code panics, the buckets
  are as before. The in-memory set of bad blocks is not rolled back.
* The clock is a parameter. Constants are those of the standard network. Heights
  are unbounded, except where a 64-bit wrap-around is written out (coinbase,
  difficulty, filters, bucket heights of the consistency checks).

Where comments or documentation and code disagree, the model follows the code:
miner fees of blocks 1 and 2 go to nobody, although the supply is described as
conserved (`Chain.FeesOfBlockOneAreLost`); `CalculateNumSiacoins` stops matching
the coinbase once a 64-bit product wraps (`Supply.ClosedFormIffBelowWrap`);
`Match` rejects a member whose hash is zero while `MatchAny` accepts it
(`Gcs.MembersAreFound`, `Gcs.OnlyMemberIsMissed`); the squared delay of the
difficulty adjustment wraps in 64 bits, so that a chain late enough counts as on
time (`Adjustment.WrapMissesCap`, `Adjustment.TimeIs`); decoding a stored block is said
never to fail, but does for valid blocks (`Oversized.CrowdedBlockIsValid`); the
mask of the try-counter covers 40 bits where its comment says 39; a revision is
late when the height exceeds `WindowStart`.

## Model

| member | source | states |
|---|---|---|
| `Diffs.RevertUndoes` | modules/consensus/diffs.go:94-106 | if every diff of a list records exactly what it changes, committing the list backwards restores the bucket there was before it, also when the same key is added and removed in between |
| `Diffs.RevertUndoesDelayed` | modules/consensus/diffs.go:103-105 | the same for the delayed-output buckets of all heights at once |
| `Buckets.FitsAt` | modules/consensus/diffs.go:82-107 | every diff of a fitting list fits the bucket that its predecessors leave |
| `Buckets.Buckets.AddFileContract` | modules/consensus/consensusdb.go:424-450 | a new contract is stored and listed under its WindowEnd, and the index goes on agreeing with the contracts |
| `Buckets.Buckets.RemoveFileContract` | modules/consensus/consensusdb.go:453-480 | with the index in agreement the expiration entry is always found, so the panic is unreachable; contract and entry go |
| `Buckets.Buckets.CommitFileContractDiff` | modules/consensus/diffs.go:64-70 | the same for contracts, keeping the expiration index in agreement |
| `Buckets.Buckets.CommitNodeDiffs` | modules/consensus/diffs.go:82-107 | forwards, the three buckets are the folds of their diff lists; backwards, the contracts are what the diffs started from and the others the folds in reverse |
| `Buckets.Buckets.CreateUpcomingDelayedOutputMaps` | modules/consensus/diffs.go:111-120 | applying opens bucket height+MaturityDelay; reverting puts bucket height back empty once heights mature |
| `Buckets.Buckets.DeleteObsoleteDelayedOutputMaps` | modules/consensus/diffs.go:124-135 | applying closes bucket height once heights mature; reverting closes bucket height+MaturityDelay |
| `Buckets.Buckets.CommitDiffSet` | modules/consensus/diffs.go:148-158 | replaying the recorded diffs of a block reaches exactly the state they were recorded in, and reverting them restores exactly the state before the block: outputs, contracts, expirations, delayed buckets and path |
| `Buckets.Buckets.ApplySiacoinInputs` | modules/consensus/applytransaction.go:16-31 | exactly the spent outputs leave the bucket, and the recorded diffs still explain the change since the start of the block |
| `Buckets.Buckets.ApplySiacoinOutputs` | modules/consensus/applytransaction.go:35-49 | the outputs appear under the ids of the transaction and their indices |
| `Buckets.Buckets.ApplyFileContracts` | modules/consensus/applytransaction.go:54-65 | the contracts appear under their ids, indexed by expiration |
| `Buckets.Buckets.ApplyFileContractRevisions` | modules/consensus/applytransaction.go:70-106 | every contract has, field by field, the terms of the last revision in the transaction that names it and the payout it had, also when it is revised repeatedly; one that is not named is unchanged; the state is the fold of the revisions and the diff log explains it |
| `Buckets.Buckets.ApplyStorageProofs` | modules/consensus/applytransaction.go:111-139 | the proved contracts close and their valid-proof outputs are delayed until the block matures |
| `Buckets.Buckets.ApplyTransaction` | modules/consensus/applytransaction.go:144-150 | the state becomes the reference effect of the transaction, and the diff log explains it |
| `Buckets.ValidIsApplicable` | modules/consensus/applytransaction.go:3-4 | validation plus fresh ids establish all that applyTransaction takes for granted: parts exist, new ids are new, nothing is paid twice |
| `Buckets.Buckets.ApplyMaturedSiacoinOutputs` | modules/consensus/maintenance.go:40-106 | in whatever order the bucket is scanned, its outputs become spendable and the bucket goes; before MaturityDelay nothing happens |
| `Buckets.Buckets.ApplyMissedStorageProof` | modules/consensus/maintenance.go:182-221 | the diffs pay each missed-proof output under its id and close the contract |
| `Buckets.Buckets.ApplyFileContractMaintenance` | modules/consensus/maintenance.go:226-260 | exactly the contracts that end at this height close, their missed-proof outputs are delayed, and the expiration bucket goes |
| `Buckets.Buckets.ApplyMaintenance` | modules/consensus/maintenance.go:265-269 | miner payouts, maturing and expiring together have the reference effect |
| `Buckets.Buckets.ApplyTransactions` | modules/consensus/diffs.go:180-186 | the loop succeeds exactly when every transaction is valid in the state its predecessors leave, and then the state is the fold of their effects |
| `Buckets.Buckets.GenerateAndApplyDiff` | modules/consensus/diffs.go:165-226 | on a healthy state it succeeds exactly on the valid blocks; then the state is the block's effect, every open contract has the terms of the last revision in the block that names it and is unchanged where there is none, the recorded diffs lead from the old state to the new one, so the fast path equals the slow path and reverting undoes both, and the number of diffs of each kind follows from the block and the state before it |
| `Revisions.ReviseAmends` | modules/consensus/applytransaction.go:70-106 | after any list of revisions a contract has the file, root, window, outputs, address and number of the last one that names it and its old payout; without one it is unchanged |
| `Revisions.TransactionRenews` | modules/consensus/applytransaction.go:144-150 | the same of a whole valid transaction, also for the contracts that it forms itself |
| `Revisions.BlockRenews` | modules/consensus/diffs.go:180-186 | and of a whole valid block: what is open after it has the terms of the last revision in it, of the contract there was or of the one it formed |
| `Buckets.ReadyForMaintenance` | modules/consensus/maintenance.go:265-269 | after the transactions of a block on a healthy state the maintenance steps meet no missing bucket and no repeated id |
| `Validation.CheckTransaction` | modules/consensus/validtransaction.go:192-215 | accepts exactly the transactions that are valid on their own and in the state |
| `Validation.CheckSiacoins` | modules/consensus/validtransaction.go:30-57 | accepts exactly when every input exists, unlocks, and the inputs sum to outputs, payouts and fees |
| `Validation.CheckStandalone` | types/validtransaction.go:254-288 | accepts exactly when storage-proof rules, distinctness, minimum values, contract and revision correctness, sizes, timelocks and signatures are in order |
| `Validation.CheckContracts` | types/validtransaction.go:49-83 | accepts exactly when every contract ends after it starts, starts later, and both output sums equal the payout |
| `Validation.CheckRevisions` | types/validtransaction.go:87-119 | the same for revisions, whose two output sums are equal |
| `Validation.AllDistinct` | types/validtransaction.go:191-218 | the map-filling loop accepts exactly the lists without repeats |
| `Validation.SumOutputs` | types/transactions.go:220-237 | the accumulated sum is outputs plus contract payouts plus miner fees |
| `Admission.Admit` | types/validtransaction.go:123-134 | accepts exactly the transactions within the size limits, with expired timelocks and proper signatures; `Validation.CheckStandalone` calls it |
| `Validation.SegmentInFile` | modules/consensus/validtransaction.go:61-125 | the segment that the seed picks lies in the file, and is cut off exactly where the file ends; which segment that is, is in `Validation.ProofDemands` |
| `Validation.ProofDemands` | modules/consensus/validtransaction.go:61-140 | the hash of the block before the window and the contract id picks one segment, its remainder modulo the number of 64-byte segments of the file; a proof is accepted if and only if all bytes of that segment verify under that index, that count and the contract's root |
| `Validation.AnySegment` | modules/consensus/validtransaction.go:61-98 | every segment of the file is the one asked for under some seed |
| `Validation.ProofRefused` | modules/consensus/validtransaction.go:102-140 | a proof needs an open contract whose window has begun; for an empty file nothing more is asked |
| `Admission.ValidUnlockConditions` | types/validtransaction.go:234-248 | both loops accept exactly when no timelock is above the height |
| `Signatures.SortedUnique` | types/signatures.go:272-288 | accepts exactly the strictly ascending lists whose entries are below the maximum |
| `Signatures.ValidCoveredFields` | types/signatures.go:294-349 | accepts exactly when every signature covers the whole transaction and nothing but signatures, or some field, and all indices are sorted, unique and in range; under it `SigHash` accesses nothing out of range |
| `Signatures.CheckSignature` | types/signatures.go:397-440 | one signature passes exactly when its parent still owes one, its key is unused, in range and not entropy, its timelock has expired and an Ed25519 key verifies the hash |
| `Signatures.ValidSignatures` | types/signatures.go:352-450 | accepts exactly when covered fields are valid, parents are distinct, every signature belongs to a parent, no key is reused, and each parent has exactly the required number; what each signature then covers is in `Signatures.WholeCovers` and `Signatures.PartialCovers`, how many keys have signed for what in `Authority.SignedExactly` |
| `Signatures.WholeCovers` | types/signatures.go:181-236 | two signatures of whole transactions hash the same if and only if everything but the signatures, the signed parent, key index and timelock are the same, and the covered signatures agree one by one |
| `Signatures.PartialCovers` | types/signatures.go:238-269 | two partial signatures hash the same if and only if the covered elements of each of the eight lists agree one by one; nothing else matters |
| `Signatures.WholeIsNotPartial` | types/signatures.go:181-188 | a signature of the whole transaction never hashes what a partial one does |
| `Authority.SignedExactly` | types/signatures.go:352-450 | the signature rule holds if and only if covered fields are in order, parents differ, every input and every revision is signed for by exactly as many signatures as its unlock conditions require, each with another of their keys, and there are no other signatures |
| `Conservation.CreatorIsNew` | types/validtransaction.go:138-155 | a valid transaction that creates anything spends something, and it cannot have been applied before |
| `Conservation.TransactionConserves` | modules/consensus/validtransaction.go:192-215 | a valid transaction keeps ids fresh and contracts balanced, touches only the bucket of its block, and the coins shrink by exactly its miner fees |
| `Conservation.SpendTotal` | modules/consensus/applytransaction.go:16-31 | removing the distinct inputs lowers the total by exactly what they were worth |
| `Conservation.ReviseTotal` | modules/consensus/applytransaction.go:70-106 | revisions keep the total value of the contracts, their balance, their payout and their deadlines |
| `Conservation.ProveAllSteps` | modules/consensus/applytransaction.go:111-139 | storage proofs move value from contracts to delayed outputs without loss |
| `BlockEffects.PayoutsStep` | modules/consensus/maintenance.go:23-35 | miner payouts get fresh ids because no earlier block has this height, and add exactly their sum |
| `BlockEffects.MatureWorth` | modules/consensus/maintenance.go:40-106 | maturing moves value without changing it |
| `BlockEffects.MissedTotal` | modules/consensus/maintenance.go:182-221 | the missed-proof outputs of balanced contracts are worth exactly the contracts |
| `BlockEffects.ExpireStep` | modules/consensus/maintenance.go:226-260 | expiry keeps the total, and afterwards no open contract ends at or below the height |
| `BlockEffects.BlockConserves` | modules/consensus/diffs.go:165-226 | a valid block takes a healthy state to a healthy state; coins plus burned fees grow by exactly the coinbase; the window of delayed buckets moves by one |
| `BlockEffects.WindowMoves` | modules/consensus/consistency.go:211-235 | the buckets are again exactly heights max(h+1, MaturityDelay) to h+MaturityDelay, each with at least the coinbase of its block |
| `Chain.GenesisHealthy` | modules/consensus/consensusdb.go:127-175 | the initial database satisfies every invariant |
| `Chain.GenesisWorth` | types/constants.go:448-458 | the genesis outputs are worth the genesis allocation |
| `Chain.EveryChain` | modules/consensus/consistency.go:79-236 | along every valid chain: ids are fresh, contracts balanced and unexpired, delayed buckets the exact window with their floors, the path is the ancestry, and coins plus burned fees equal everything issued |
| `Chain.SiacoinCount` | modules/consensus/consistency.go:79-153 | below the 64-bit wrap the coins equal CalculateNumSiacoins if and only if blocks 1 and 2 carry no fees, and never exceed it |
| `Chain.AllForFeesIsAdmissible` | types/signatures.go:352-450 | a signed spend of a genesis output is within the size, timelock and signature rules, whatever the verifier says |
| `Chain.FeesOfBlockOneAreLost` | types/block.go:136-151 | a concrete first block with that spend is valid under every oracle, and after it the coins are fewer than CalculateNumSiacoins |
| `Chain.NoReplay` | types/transactions.go:150-179 | a transaction with an input occurs at most once on a valid chain |
| `Authority.IdsNameBodies` | types/transactions.go:150-198 | two outputs or contracts have the same id if and only if their transactions are the same but for the signatures and their indices are the same |
| `Authority.BodiesNeverRepeat` | types/transactions.go:150-198 | no two transactions on a valid chain that spend something are the same but for their signatures |
| `Authority.SpendsAreAuthorised` | modules/consensus/validtransaction.go:30-57 | every input of every block on a valid chain spends the output that its id names, with the unlock conditions that its address hashes, their timelock below the height of the block, and their required number of keys signing |
| `Authority.RevisionsAreAuthorised` | modules/consensus/validtransaction.go:143-188 | every revision amends the contract its id names as earlier revisions left it: signed and unlocked like an input, not after the window began, with a higher number, a window ahead, and for the payout of the contract, proved or missed |
| `Authority.ContractsAreFormed` | types/validtransaction.go:49-188 | every contract formed on a valid chain has its window ahead and pays its payout, proved or missed; outputs, payouts and fees are positive; a transaction with a storage proof creates and revises nothing |
| `Provenance.EverythingIsNamed` | modules/consensus/applytransaction.go:35-139 | on every valid chain each spendable or delayed output is the one its id names: the indexed output of a transaction, the indexed payout of a block, or the indexed valid- or missed-proof output of a contract by its last revision; and each open contract has the terms of its last revision |
| `Provenance.TermsOfContract` | modules/consensus/applytransaction.go:70-106 | an open contract on a valid chain has the terms of its last revision, and whatever the revisions it pays what it was formed with, proved or missed |
| `Provenance.AllIsPaid` | modules/consensus/maintenance.go:23-260 | every valid block delays until height+MaturityDelay each of its payouts, each valid-proof output of each contract it proves, and each missed-proof output of each contract that ends with it unproved, by its last revision |
| `Provenance.ProofsVerify` | modules/consensus/validtransaction.go:61-140 | every storage proof in a valid block is for a contract with the terms of its last revision, whose window has begun, and verifies the segment that the block below the window on the same chain picks |
| `Chain.AncestryShape` | modules/consensus/consensusdb.go:285-296 | the ancestry of a rooted block has one block per height, each the parent of the next, from genesis to the block |
| `Supply.ClosedFormIffBelowWrap` | types/block.go:63-116 | the closed form equals genesis allocation plus the sum of all coinbases if and only if the height is below 2^63+3 |
| `Supply.CalculateMinerFees` | types/block.go:124-132 | the nested loop sums all fees of all transactions |
| `Supply.CalculateSubsidies` | types/block.go:136-151 | miner and developer parts together are the coinbase, plus the fees from height 3 on |
| `Supply.CheckMinerPayouts` | modules/consensus/block_validation.go:47-109 | accepts exactly the payout lists the rule describes, for the first two heights and all others |
| `Supply.PayoutsHandOutWhatIsDue` | modules/consensus/block_validation.go:47-109 | accepted payouts plus burned fees are coinbase plus fees, and never less than the coinbase |
| `BlockTree.TreeAdd` | modules/consensus/processedblock.go:130-138 | storing a new block keeps what is known of every other block |
| `BlockTree.TreeGenerate` | modules/consensus/diffs.go:192-225 | marking a valid block as generated keeps the tree consistent |
| `BlockTree.CommonIs` | modules/consensus/fork.go:20-44 | an agreeing prefix that cannot be extended is the longest common one |
| `BlockTree.HistoryGrows` | modules/consensus/accept.go:200-213 | a move to a deeper tip is an entry the log does not have, and extends the history |
| `Consensus.ConsensusSet.constructor` | modules/consensus/consensusdb.go:127-175 | a new consensus set satisfies the invariant, at genesis, and reads back |
| `Consensus.ConsensusSet.BacktrackToCurrentPath` | modules/consensus/fork.go:20-44 | terminates with the parent-linked nodes from the highest common ancestor to the block |
| `Consensus.ConsensusSet.RevertToBlock` | modules/consensus/fork.go:49-76 | the state is that of the target block, and the reverted ids are the old suffix newest first |
| `Consensus.ConsensusSet.RevertUnreadable` | modules/consensus/fork.go:61-64 | reverting a current block that decodes but has too many diffs of some kind undoes only the kinds before that one, opens the matured bucket again empty and drops the one the block opened; that is the state of the parent if and only if the delayed diffs alone are too many and the height is below MaturityDelay |
| `Consensus.ConsensusSet.ApplyKnown` | modules/consensus/fork.go:88-89 | replaying a block validated earlier gives the state of its chain |
| `Consensus.ConsensusSet.ApplyNew` | modules/consensus/fork.go:90-97 | validating a new block succeeds exactly when its chain is valid, and then gives the state of its chain |
| `Consensus.ConsensusSet.ApplyUntilBlock` | modules/consensus/fork.go:80-109 | succeeds exactly when the chain up to the block is valid; then the applied ids are the new suffix oldest first and no block is marked as bad; otherwise exactly the lowest block of the branch whose chain is not valid is marked, besides those marked before |
| `Consensus.ConsensusSet.ForkBlockchain` | modules/consensus/fork.go:115-124 | succeeds exactly when the new chain is valid; then the state is that of the new tip, the lists are exactly the reorganisation and no block is marked; otherwise exactly the lowest invalid block on the way is marked |
| `Consensus.ConsensusSet.CheckRevertApply` | modules/consensus/consistency.go:242-272 | when the current block reads back and its parent decodes, going back one block gives the state of the parent, and going forward again the state there was, with no block marked |
| `Consensus.ConsensusSet.NewChild` | modules/consensus/processedblock.go:115-166 | the stored child carries the height and weight of its chain; it fails exactly on zero targets |
| `Consensus.ConsensusSet.AddBlockToTree` | modules/consensus/accept.go:183-214 | a block becomes the tip exactly when it is heavier than the tip and its chain is valid; a lighter one is only stored, whatever else is stored; the log gains exactly the reorganisation; exactly the ancestry of the new tip is validated; it panics exactly on zero targets or when the current block does not decode; a block is marked exactly when the new one is heavier and its chain not valid, and then it is the lowest invalid one |
| `Consensus.ConsensusSet.MoveTip` | modules/consensus/accept.go:195-213 | moving the tip to a heavier block succeeds exactly when its chain is valid, and then the set is consistent at the new tip, with exactly its ancestry newly validated and the reorganisation logged; otherwise exactly the lowest invalid block on the way to it is marked |
| `Consensus.ConsensusSet.ValidateHeaderAndBlock` | modules/consensus/accept.go:65-101 | accepts exactly the unknown, unmarked blocks whose parent is known and decodes, that are timely, solved, small enough, not in the future and with correct payouts; a marked block is refused as such, whatever else is wrong with it, and nothing else is; so are orphans, a parent that does not decode, and future timestamps |
| `Consensus.ValidateBlock` | modules/consensus/block_validation.go:119-160 | returns the error of the first rule that the block breaks, in the order early, unsolved, large, extreme future, payouts, future, and none if it breaks none |
| `Acceptance.FirstInvalidExists` | modules/consensus/fork.go:88-97 | on the way to a block whose chain is not valid there is a block that is not valid on a valid parent: the one that is marked |
| `Acceptance.FirstInvalidIs` | modules/consensus/fork.go:88-97 | and only one |
| `Acceptance.NoneMarked` | modules/consensus/accept.go:283-373 | a batch that is accepted leaves no mark |
| `Consensus.ConsensusSet.AcceptBlock` | modules/consensus/accept.go:306-347 | one block of a batch succeeds exactly when it is known and unmarked, or acceptable and comparable, on a tip that decodes, and either does not replace the tip or is valid with at least as many applied as reverted; the change is there exactly when the tip moves; it is refused as invalid exactly when it would move the tip and its chain is not valid, and then, and only then, the lowest invalid block on the way is marked |
| `Consensus.ConsensusSet.AcceptAll` | modules/consensus/accept.go:305-350 | the database transaction succeeds exactly when every block of the batch does in the view its predecessors leave, and then leaves that view and those changes; the blocks marked as bad grow by exactly `Acceptance.Marked` |
| `Consensus.ConsensusSet.ManagedAcceptBlocks` | modules/consensus/accept.go:283-373 | for every batch that the set is ready for, the set stays consistent; a linear batch is accepted exactly as `Acceptance.AcceptedAll` says, others are refused; a failure leaves buckets, tree and log as they were, but for the marked blocks, which grow by exactly `Acceptance.Marked`; it fails as invalid exactly when that is not empty; the chain counts as extended exactly when there are changes; the height never falls |
| `Consensus.BestMoves` | modules/consensus/processedblock.go:37-40 | a block that replaces a best tip is itself a best tip: no known block is heavy enough to replace it |
| `Consensus.NewEntry` | modules/consensus/accept.go:200-213 | the entry of a replacing tip is new, and applies at least that tip |
| `Consensus.ReorgApplies` | modules/consensus/accept.go:335-345 | a move to a deeper tip ends with that tip |
| `Consensus.PathLengths` | modules/consensus/accept.go:342-346 | old height minus reverted plus applied is the new height |
| `Consensus.TreeStored` | modules/consensus/block_rules.go:25-50 | every ancestor of a stored block is stored, down to genesis |
| `Consensus.LegibleReads` | modules/consensus/fork.go:20-76 | when the two branches between the tip and the parent of a new block read back above their fork and the block at the fork decodes, so does all that a move to the new block reads |
| `Consensus.ReadyForAll` | modules/consensus/fork.go:20-76 | a consistent set whose stored blocks all read back is ready for every batch |
| `Footprint.OutputsChange` | modules/consensus/maintenance.go:40-106 | a valid block leaves the spendable outputs as they were if and only if it is below MaturityDelay and spends nothing; it never does when it records an output diff |
| `Footprint.DelayedChange` | modules/consensus/maintenance.go:23-35 | every valid block changes the delayed outputs: its first payout is held in the bucket it opens, and was not before |
| `Footprint.ContractsSame` | modules/consensus/applytransaction.go:54-139 | a valid block leaves the open contracts as they were if and only if it revises and proves none of them, none of them ends with it, and it proves itself every contract it forms |
| `Footprint.ContractsChange` | modules/consensus/maintenance.go:226-260 | a valid block within the size limit with more contract diffs than the decoder accepts changes the open contracts, for its transactions have no room for that many and so some contract expires |
| `Footprint.EmptiedIsBefore` | modules/consensus/diffs.go:111-135 | opening the matured bucket again empty and dropping the newest gives the delayed buckets before the block if and only if nothing matured yet |
| `Footprint.UndoneIsBefore` | modules/consensus/diffs.go:148-158 | undoing the lists of diffs that the decoder reached gives the state before a valid block within the size limit if and only if only the delayed diffs are too many and nothing matured yet |
| `Storage.LoadIsExact` | modules/consensus/consensusdb.go:250-264 | getBlockMap returns what was stored if and only if the decoder accepts it |
| `Consistency.CheckSiacoinCount` | modules/consensus/consistency.go:79-153 | the three loops count exactly the coins of the state, and pass exactly when they equal CalculateNumSiacoins |
| `Consistency.CheckDSCOs` | modules/consensus/consistency.go:157-236 | passes exactly when no output is delayed twice, each bucket has its floor and the buckets are the window |
| `Consistency.EveryRun` | modules/consensus/consistency.go:322-334 | in every reachable consensus set: state of the tip's chain, full accounting of coins, the bucket window, no ended contract open or listed |
| `Consistency.DelayedInEveryRun` | modules/consensus/consistency.go:157-236 | in every reachable consensus set whose bucket heights fit 64 bits checkDSCOs passes |
| `Consistency.CountInEveryRun` | modules/consensus/consistency.go:79-153 | in every reachable consensus set below the wrap checkSiacoinCount passes if and only if no fees were burned |
| `Consistency.ReadableInEveryRun` | modules/consensus/consensusdb.go:250-264 | in every reachable consensus set the stored blocks all read back if and only if each is within limits that its id and its validation determine |
| `Consistency.LimitsOfValidBlocks` | encoding/marshal.go:343-350 | a validated block of admissible size is within them if and only if it has at most 26041 transactions and records at most 48076 output, 23148 contract and 44642 delayed diffs |
| `Consistency.PathIndependence` | modules/consensus/consistency.go:27-75 | two runs with the same tip have the same path, outputs, contracts and delayed outputs, and the same expirations but for empty buckets |
| `Consistency.LogOfEveryRun` | modules/consensus/changelog.go:61-134 | in every reachable consensus set no log entry repeats, each is the exact move from the tip before, and the stored depth strictly falls from tip to tip |
| `Consistency.MedianInEveryRun` | modules/consensus/block_rules.go:25-50 | in every reachable consensus set the minimum child timestamp never goes back along a stored chain |
| `Consistency.OakInEveryRun` | modules/consensus/difficulty.go:62-131 | in every reachable consensus set stored targets n blocks apart obey the Oak bounds, unless the launch height lies between |
| `Targets.AddDifficultiesBelow` | types/target.go:33-36 | adding difficulty strictly lowers a target, and no cap interferes |
| `Targets.MulDifficultyIs` | types/target.go:86-90 | the product is the floor of x/y, within one unit, and stays positive for factors up to one |
| `Targets.HeavierIsDeeper` | modules/consensus/processedblock.go:37-40 | a block heavier than the tip has strictly smaller depth |
| `Targets.HeavierIsAStrictOrder` | modules/consensus/processedblock.go:37-40 | heavierThan is irreflexive, asymmetric and transitive on nonzero targets |
| `Difficulty.TargetBlockTime` | modules/consensus/difficulty.go:70-117 | the aimed block time is between a third and three times the block frequency for every height and timestamp, through all 64-bit wraps; its exact value and direction are in `Adjustment.TimeIs` and `Adjustment.TimeIsAntitone` |
| `Difficulty.ClampedWithin` | modules/consensus/difficulty.go:119-130 | a new target is at most 0.4% above the old one and less than 0.4% plus one unit below it |
| `Adjustment.TimeIs` | modules/consensus/difficulty.go:70-117 | the aimed block time is ten minutes, plus the squared distance over 10^7 when the chain is early and minus it when it is late, capped at a third and three times, for all distances whose square is below 2^63; for the others if and only if the wrapped square hits the right cap |
| `Adjustment.WrapMissesCap` | modules/consensus/difficulty.go:85-91 | 2^32 seconds late the square wraps to zero and the chain counts as on time |
| `Adjustment.TimeIsAntitone` | modules/consensus/difficulty.go:86-100 | that time never grows with the timestamp, is ten minutes on time, at least that when early and at most that when late |
| `Adjustment.HashrateIs` | modules/consensus/difficulty.go:102-112 | the visible hashrate is all hashes behind the total target over the total time, in whole numbers and at least one |
| `Adjustment.HashrateFalls` | modules/consensus/difficulty.go:102-112 | it never grows with the total time or the total target |
| `Adjustment.OakIs` | modules/consensus/difficulty.go:119-131 | the new target is what one block in the aimed time asks for at the visible hashrate if that is within 0.4% of the current one, and the nearer end otherwise |
| `Adjustment.OakFalls` | modules/consensus/difficulty.go:119-131 | more hashes a second or a longer aimed time never make the target easier |
| `Adjustment.LateIsEasier` | modules/consensus/difficulty.go:62-131 | a later parent never makes the next block harder, below the wrap |
| `Adjustment.TotalTimeIs` | modules/consensus/difficulty.go:145-169 | the total time becomes 99.5% of itself plus the time the block took, if and only if that is a 64-bit number |
| `Adjustment.TotalTargetIs` | modules/consensus/difficulty.go:145-169 | the difficulty behind the total target becomes 99.5% of itself plus that of the block, in whole numbers |
| `Adjustment.HeavierIs` | modules/consensus/processedblock.go:37-40 | a block replaces a tip if and only if its depth is below that of the tip with a fifth of a block added, in whole numbers |
| `Adjustment.ChildWeighs` | modules/consensus/processedblock.go:115-166 | depth, target and totals of a block follow from those of its parent and the two timestamps by these formulas |
| `Weights.DepthFalls` | modules/consensus/processedblock.go:45-47 | every block is strictly deeper than its parent |
| `Weights.EveryWeightInRange` | types/target.go:61-77 | depth, target and totals stay 256-bit numbers on every chain |
| `Weights.OakOverChain` | modules/consensus/difficulty.go:62-131 | over n blocks that avoid the launch override, T0*(1000/1004)^n - 251 < Tn <= T0*(1004/1000)^n |
| `MedianTime.MinimumValidChildTimestamp` | modules/consensus/block_rules.go:25-50 | the loop fills the window with the ancestors' times, padded with genesis, and returns its median |
| `MedianTime.MedianSplits` | modules/consensus/block_rules.go:46-49 | the median is one of the eleven times, at least six are not below it and at most five above it |
| `MedianTime.MedianMovesForward` | modules/consensus/block_validation.go:119-123 | a new time not below the median never lowers it |
| `MedianTime.NeverBack` | modules/consensus/block_rules.go:25-50 | along every chain that obeys the rule the minimum time is non-decreasing, including the padded start |
| `Sorting.SortSorts` | modules/consensus/block_rules.go:46-46 | sorting gives a sorted permutation |
| `ChangeLog.ChangeLog.constructor` | modules/consensus/changelog.go:137-160 | the new log holds the genesis entry |
| `ChangeLog.ChangeLog.Append` | modules/consensus/changelog.go:61-98 | the old tail points to the new entry and the list gains it at the end |
| `ChangeLog.ChangeLog.GetEntry` | modules/consensus/changelog.go:102-114 | finds an entry exactly when it was appended |
| `ChangeLog.ChangeLog.NextEntry` | modules/consensus/changelog.go:122-134 | gives the entry appended after this one, or nothing at the tail |
| `ChangeLog.ChangeLog.SendBatch` | modules/consensus/subscribe.go:168-184 | a batch is the next hundred entries or all that are left |
| `ChangeLog.ChangeLog.CatchUp` | modules/consensus/subscribe.go:114-193 | walking from a start id, or from genesis, visits every later entry once, in order, and ends at the tail; it fails exactly on unknown ids |
| `ChangeLog.AppendLinks` | modules/consensus/changelog.go:61-98 | the two writes of an append turn a linked list of entries into the longer one |
| `Subscription.NextKeeps` | modules/consensus/subscribe.go:216-269 | every interleaved step keeps the subscriber in step with the log |
| `Subscription.ExactlyOnce` | modules/consensus/subscribe.go:114-269 | at every moment of every interleaving the subscriber has received the log from its start, each change once and in order; while registered, all of it |
| `Subscription.GetsThere` | modules/consensus/subscribe.go:216-269 | from every reachable state of a subscription under way, steps without new blocks lead to registration, or to refusal exactly when it asks for changes after one that the log does not have |
| `Replica.ComputeConsensusChange` | modules/consensus/subscribe.go:16-83 | the output, contract and delayed diffs are the flipped reversed diffs of the reverted blocks followed by those of the applied blocks, as the block map gives them back; it fails exactly on unknown blocks |
| `Replica.FlippedReverts` | modules/consensus/subscribe.go:28-37 | applying flipped diffs in reverse order is reverting |
| `Replica.EntryMoves` | modules/consensus/subscribe.go:20-63 | the diffs of a reorganisation turn the bucket of the old tip into that of the new tip |
| `Replica.DelayedExplained` | modules/consensus/diffs.go:111-135 | the recorded diffs of a block explain its delayed outputs, whatever empty buckets come and go |
| `Replica.ReplicaOfPrefix` | modules/consensus/subscribe.go:16-63 | in every reachable consensus set, if the blocks that the log names read back, replaying the diffs of the first n log entries from empty maps rebuilds the outputs, contracts and, but for the genesis payout, delayed outputs of the tip after them |
| `Replica.ReplicaOfEveryRun` | modules/consensus/subscribe.go:16-63 | so replaying all of them rebuilds exactly the unspent outputs, the open contracts and, but for the genesis payout, the delayed outputs of the set, whatever other blocks are stored |
| `Replica.LogHasNoRepeats` | modules/consensus/changelog.go:61-98 | in every reachable consensus set no log entry occurs twice, which is what `Subscription` takes for granted |
| `Replica.SubscriberHolds` | modules/consensus/subscribe.go:114-269 | at every moment of every interleaving, a subscriber from the beginning that applies what it was sent holds the state of the last change sent; while registered, the current state |
| `Replica.RegisteredHasSome` | modules/consensus/subscribe.go:216-269 | a registered subscriber from the beginning has been sent the whole log, and it is not empty |
| `Replica.LostReplica` | modules/consensus/subscribe.go:46-63 | when of all blocks that the log names the tip alone does not read back, replaying the log gives the tip's outputs or contracts if the decoder reached their diffs, the parent's otherwise, and the parent's delayed outputs |
| `Replica.LostDiffs` | modules/consensus/subscribe.go:46-63 | then the outputs are right if and only if their diffs were reached, or the height is below MaturityDelay and the block spends nothing; the contracts if and only if theirs were, or the block leaves them alone; the delayed outputs never |
| `Replica.ReplicaIsRight` | modules/consensus/subscribe.go:46-63 | when all other blocks that the log names read back, the replica is right if and only if the tip does |
| `Replica.ChangesOfEveryRun` | modules/consensus/subscribe.go:20-54 | in every reachable consensus set the change of every log entry can be computed |
| `Wire.Uint64RoundTrip` | encoding/marshal.go:323-329 | eight little-endian bytes read back as the number |
| `Wire.PrefixRoundTrip` | encoding/marshal.go:343-350 | a length within the slice limit reads back |
| `Wire.PrefixedBytesRoundTrip` | encoding/marshal.go:303-320 | prefixed bytes read back and leave the rest |
| `Wire.CurrencyRoundTrip` | types/encoding.go:216-276 | a currency reads back from its minimal big-endian form |
| `Wire.SliceGood` | types/encoding.go:649-804 | a slice of elements that read back reads back, within the slice limit, and takes exactly as many bytes as its size formula says |
| `Wire.LongSliceRefused` | encoding/marshal.go:343-350 | a slice beyond the limit is refused, whatever its elements |
| `WireRecords.TransactionRoundTrips` | types/encoding.go:649-804 | for every transaction within the decoder limits and every suffix, decoding the encoding gives the transaction and leaves the suffix, and the size formula is the exact length |
| `WireRecords.BlockRoundTrips` | types/encoding.go:33-104 | the same for blocks |
| `WireBytes.WordDigit` | encoding/integers.go:24-29 | byte i of a written number is its digit of weight 256^i |
| `WireBytes.CurrencyDigit` | types/encoding.go:216-242 | byte i from the end of a written currency is its digit of weight 256^i, and the first is not zero |
| `WireBytes.ContractWrites` | types/encoding.go:328-345 | a contract is written as size, root, window start and end, payout, valid and missed outputs, address and number, each in its own bytes |
| `WireBytes.RevisionWrites` | types/encoding.go:391-409 | a revision is written as parent, unlock conditions, number, size, root, window, both output lists and address |
| `WireBytes.UnsignedWrites` | types/encoding.go:677-707 | a transaction without signatures is written as its seven lists in order, each with its length |
| `WireBytes.TransactionWrites` | types/encoding.go:649-673 | a transaction is those bytes and its signatures |
| `WireBytes.BlockWrites` | types/encoding.go:33-61 | a block is written as parent id, nonce, timestamp, payouts and transactions |
| `WireBytes.PreimagesWrite` | types/transactions.go:150-198 | the ids of outputs and contracts hash the specifier, the bytes of the transaction without its signatures, and the index |
| `WireIds.SameKindSameObject` | types/transactions.go:150-213 | two output or contract ids hash the same bytes exactly when the unsigned transactions and the indices are equal, and an output id never hashes what a contract id does |
| `WireIds.KindsNeverCoincide` | types/filecontracts.go:104-111 | what transaction-output, miner-payout and storage-proof-output ids hash never coincides |
| `WireIds.FixedKindsInjective` | types/block.go:213-218 | payout and proof-output ids determine what they are ids of |
| `WireLimits.WindowEndInRawBytes` | modules/consensus/consensusdb.go:466-470 | bytes 48 to 56 of a stored contract are its WindowEnd |
| `WireLimits.ParentAndTimeInRawBytes` | modules/consensus/block_rules.go:38-44 | bytes 0 to 32 and 40 to 48 of a stored block are its parent id and timestamp |
| `WireLimits.AdmittedTransactionFits` | types/validtransaction.go:123-134 | a transaction within the size rule is within the decoder limits |
| `WireLimits.AdmittedBlockReadsBack` | types/encoding.go:65-104 | a block within the size rules reads back if and only if it has at most 26041 transactions |
| `WireLimits.CrowdedIsRefused` | encoding/marshal.go:343-350 | a block of more than 26041 transactions is refused |
| `WireStore.StoredReadsBack` | modules/consensus/processedblock.go:19-31 | a stored block of admissible size reads back from its bytes if and only if it is within the four limits, and is refused otherwise |
| `Oversized.CrowdedBlockIsValid` | modules/consensus/consensusdb.go:257-262 | every valid chain of height two or more has a valid next block within the size limit that does not decode |
| `Oversized.BusyBlockIsLost` | modules/consensus/consensusdb.go:257-262 | every valid chain of height two or more with 31 outputs of 1558 that need no signature has a valid next block, within the size limit and the limits of the network's decoder, with more output diffs than the decoder of stored blocks accepts, so that reverting it does not lead back |
| `Oversized.SplitsAreValid` | modules/consensus/validtransaction.go:192-215 | any number of transactions that split distinct such outputs are valid one after the other |
| `Coders.Encoder.Write` | encoding/marshal.go:71-81 | the writer holds exactly what fitted of all that was to be written, and after a failure nothing more |
| `Coders.Encoder.WritePrefixedBytes` | encoding/marshal.go:117-121 | asks for the length and the bytes |
| `Coders.Decoder.ReadFull` | encoding/marshal.go:286-298 | reads exactly as the reference reader, or sets an error that makes all later reads no-ops |
| `Coders.Decoder.NextUint64` | encoding/marshal.go:323-329 | the same for a number |
| `Coders.Decoder.NextPrefix` | encoding/marshal.go:343-350 | the same for a length, zero on error |
| `Coders.Decoder.ReadPrefixedBytes` | encoding/marshal.go:303-320 | the same for prefixed bytes |
| `Coders.Decoder.ReadDigests` | types/encoding.go:641-644 | the loop with its sticky error fails exactly when the list cannot be read, and otherwise reads it |
| `Coders.MarshalCurrency` | types/encoding.go:216-242 | the loops over machine words write the length and the minimal big-endian bytes of the number |
| `Coders.CurrencyMarshalSize` | types/encoding.go:245-267 | the size loop gives the exact encoded length |
| `BitStreams.BitWriter.WriteOne` | gcs/bits.go:19-29 | appends a one bit |
| `BitStreams.BitWriter.WriteZero` | gcs/bits.go:32-41 | appends a zero bit |
| `BitStreams.BitWriter.WriteNBits` | gcs/bits.go:45-87 | the three loops append exactly the n low bits, most significant first, at any alignment |
| `BitStreams.BitReader.ReadUnary` | gcs/bits.go:103-123 | counts the ones before the next zero and stands after it; fails exactly when there is no zero |
| `BitStreams.BitReader.ReadNBits` | gcs/bits.go:127-195 | reads the next n bits as a number at any alignment; fails exactly when there are fewer |
| `GolombCode.DecodeCodeAll` | gcs/gcs.go:99-124 | decoding a coded list of differences and any padding gives the list and then only zero differences |
| `GolombCode.MeetsExactly` | gcs/gcs.go:250-268 | on ascending values the search loop of Match finds a term exactly when it is positive and stored |
| `GolombCode.ZipsExactly` | gcs/gcs.go:305-335 | the zipping loop of MatchAny succeeds exactly when some term equals the value reached or a stored one |
| `Gcs.NewFilter` | gcs/gcs.go:66-137 | fails exactly on no data, too much data or too large P; otherwise the bytes are n and the coded differences of the sorted hashes with fewer than eight padding bits |
| `Gcs.ReadFullUint64` | gcs/gcs.go:340-353 | reads one coded difference exactly as the reference decoder |
| `Gcs.Match` | gcs/gcs.go:240-269 | on any usable filter, true exactly when the running sums meet the term before passing it |
| `Gcs.MatchAny` | gcs/gcs.go:277-336 | on any usable filter, true exactly when the zip of sums and sorted terms meets |
| `Gcs.MatchIsExact` | gcs/gcs.go:240-269 | on a built filter Match is true if and only if the keyed hash of the query, modulo the number of entries times 2^P, is nonzero and is that of an entry |
| `Gcs.MatchAnyIsExact` | gcs/gcs.go:277-336 | on a built filter MatchAny is true if and only if some such hash is zero or is that of an entry |
| `Gcs.MembersAreFound` | gcs/gcs.go:240-336 | a member is never missed by MatchAny, and by Match if and only if its hash is zero |
| `Gcs.OnlyMemberIsMissed` | gcs/gcs.go:252-254 | with P = 0 Match misses the only member of every filter, for every hash, while MatchAny finds it |
| `Gcs.RoundTrips` | gcs/gcs.go:141-225 | the form with n reads back always, the other three exactly when P is at most 32 |
| `Gcs.Get32IsBigEndian` | gcs/gcs.go:128-136 | the number of entries is written most significant byte first |
| `Gcs.BuiltIsWellFormed` | gcs/gcs.go:66-137 | what NewFilter builds has fields that agree, so the round trips apply |
| `BlockFilter.BuildFilter` | gcs/blockcf/blockcf.go:56-93 | builds the filter of all addresses of the block and the extra ones; fails exactly when there are none or too many |
| `BlockFilter.NeverMissed` | gcs/blockcf/blockcf.go:47-93 | a query with any address that the block pays to, spends from or mentions in a contract always matches |
| `BlockFilter.EntriesAre` | gcs/blockcf/blockcf.go:56-93 | the entries of the filter are exactly the addresses that the block pays to, spends from or mentions in a contract or revision, its payout addresses and the extra ones |
| `BlockFilter.MatchHasReason` | gcs/gcs.go:277-336 | a query matches if and only if the hash of one of its entries is zero or is that of such an address |
| `TryRWMutex.NextKeeps` | sync/tryrwmutex.go:27-102 | every step of every goroutine keeps the word equal to the tally and the goroutines compatible |
| `TryRWMutex.TryNeverWaits` | sync/tryrwmutex.go:65-96 | in every interleaving with fewer than 2^20 active operations the word is readers + 2^20 writers + 2^40 tries; past the swap of TryLock nobody holds or waits for the inner mutex, past the check of TryRLock no writer does |
| `TryRWMutex.TryOutcomes` | sync/tryrwmutex.go:65-96 | TryRLock backs off exactly when a writer is registered, TryLock exactly when anyone is |
| `TryRWMutex.WordFits` | sync/tryrwmutex.go:10-15 | the word never overflows 64 bits |
| `TryRWMutex.MutualExclusion` | sync/tryrwmutex.go:27-102 | a holder of the write lock excludes every other holder |
| `TryRWMutex.SomeoneIsReady` | sync/tryrwmutex.go:27-102 | in every reachable state with a call under way some call can go on, also if the inner mutex keeps readers out while a writer waits |
| `TryRWMutex.Drains` | sync/tryrwmutex.go:27-102 | from every reachable state the calls under way can all return, in at most five steps each, and then the word is zero |

## Left out

- MarshalSia and UnmarshalSia of the records are functions on byte streams, field by field; only the primitives, the digest loop and the currency loops are modelled on the Encoder and Decoder objects. The streams are those of a bytes.Buffer.
- Consensus.ConsensusSet.ManagedAcceptBlocks: leaves out the retry of future blocks, broadcasting and delivery to subscribers; delivery is a step of `Subscription`.
- Replica.ComputeConsensusChange: leaves out the Synced flag and the transaction tester of a ConsensusChange.
- Consensus.ConsensusSet.AddBlockToTree: when the current block decodes and the new one replaces it, asks that the two branches between them read back above their fork; a whole reorganisation through a block that does not is not modelled, only its single steps: the revert of such a block (`RevertUnreadable`) and the change that is sent (`Replica.LostDiffs`).
- Storage.Load: which payouts and transactions are left of a block that the decoder refuses is not modelled.
- Buckets.Buckets.GenerateAndApplyDiff: leaves out the block-header bucket, which the source fills with one header for several blocks.
- Subscription.ExactlyOnce: about one subscriber at a time; Unsubscribe and the refusal of double subscriptions are not modelled.
- Light-client paths (spv_*.go and the header-only variants) work on partial information and keep other invariants.
- Heights beyond 2^64, except in the coinbase, the difficulty and the consistency checks.
- The Merkle tree of a block, the reflection-based encoder, JSON and string forms, and the crypto package.
- The old windowed difficulty code, which acceptance does not call.
- Crash safety of the database file, logging, DEBUG-only checks and random consistency checks.
