# Models of the Oxen core store, its quorum mesh and two parsers

A Dafny 4.11 project that models five pieces of the Oxen repository and proves
what they promise over every input, every run or every reachable state.

* **The block store** (`src/blockchain_db/blockchain_db.cpp` on top of
  `src/blockchain_db/lmdb/db_lmdb.cpp`): adding and popping blocks on tables of
  blocks, transactions, output indices, amount buckets and spent key images.
  `BlockchainDb` is the store as an object whose methods run the original loops;
  `StoreSpec` says what each call does as a function of the tables; `StoreUndo`,
  `StoreAccount`, `StoreInvariant`, `StoreAccepts`, `StoreBlacklist`, `StoreRuns`,
  `StoreCount` and `StoreExamples` prove things about that.
  The LMDB calls are modelled from their source, not assumed: a table is a
  sequence of keyed rows, an append fails unless its key is the largest, an
  emptied amount bucket disappears.
* **The difficulty window** (`DifficultyWindow`): the vectors of timestamps and
  cumulative difficulties, kept from call to call, against reading the chain
  from scratch.
* **Checkpoint finality** (`Checkpoints`, `CheckpointRange`): the range query with
  its clamping and cursor, and the two-row lookback, against a full-scan definition
  of finality.
* **The quorum mesh** (`QuorumMesh`, `MeshBuilder`, `MeshOpening`): the greedy
  generator on its matrix, for every number of nodes.
* **The tx-extra decoder** (`TxExtra`, `TxExtraDecoder`, `TxExtraOutcome`,
  `TxExtraReading`, `TxExtraRoundTrip`, `TxExtraRewrite`, `TxExtraCompose`,
  `TxExtraExamples`) and **the RPC comment-block parser** (`RpcComments`,
  `RpcLanding`, `RpcRules`, `RpcAcceptance`, `RpcParser`).

`Steps` holds loops that may throw, with their induction principles, `Tables`
the keyed tables, `Sequences` and `Wrappers` what several models share.

Where a property is false of the code, the model keeps the code, shows an input
on which it fails and proves the exact condition:

* Popping undoes adding if and only if every input kind is supported and every
  transaction is *shaped*: adding files the outputs of any version 2 transaction
  with a gen input under amount 0, removing looks under amount 0 only when the
  gen input is the only one (`PopUndoesAddIff`; `TwoGenSticks`, where the removal
  throws; `WrongOutputRemoved`, where it takes off another transaction's output).
  This holds after every run whatever (`RunPopUndoesAddIff`).
* At every point of a run of blocks with supported inputs the store is the replay
  of the surviving blocks if and only if each block that is popped was shaped
  (`RunIsReplayIff`), and its tables are consistent under exactly the same
  condition (`RunConsistentIff`, `InconsistentRun`).  The spent set is exact in
  every such run, whatever is popped (`RunSpends`).
* The rollback on an unsupported input also unspends images that stand behind it
  and were spent by others (`RollbackRestoresIff`, `RollbackUnspends`).
* The running RingCT output count misses the non-zero outputs of ordinary
  transactions filed as coinbases (`StrayCoinbaseUncounted`) and takes the
  non-zero outputs of a miner transaction without a gen input too many
  (`SpendingMinerOvercounted`).  Count and amount-0 bucket are settled exactly for
  every accepted block and every run, so they agree if and only if these two
  amounts, and what misshapen popped blocks left behind, cancel out (`BlockCount`,
  `RunCount`, `ResidueIff`, `PlainRunCount`).
* The difficulty fill returns early at genesis, but its caller still records
  height 1; vectors left over from a longer chain are then taken for height 1's
  (`AllFillsIff`, `LeftOverReached`).
* A checkpoint query below the lowest stored height is clamped up to it, so a
  hard-coded lowest checkpoint is reported although it lies above the height
  asked for (`ImmutableIsHighestFinalIff`, `FinalityStaysIff`, `AnswerFromAbove`).
* With two nodes or more the mesh loop ends if and only if the target is at most
  one less than their number (`BuildMesh`, `TargetOutOfReach`); with fewer nodes
  and a larger target the script raises, as there is no pair to take a minimum of.
* The nonce size byte is read as a decimal number, which is its value only below
  ten (`SizeByteAgreesIff`).  Decoding composes with whatever follows if and only
  if every round completes with each slice at its full length
  (`DecodeComposesIff`); input that ends inside a record, or has a nonce of size
  00, decodes without complaint and does not compose (`ShortBurn`,
  `NegativeSize`).

Where the comment-block parser and the rules written at its head disagree, the
model follows the parser, and `LaxBlock` is an accepted block that breaks them
all:

* "Exactly one" Inputs and Outputs: a further heading is let through if and only
  if nothing has been written under the earlier ones, and for Inputs there was no
  "Inputs: none" (`InputsHeadingIff`, `OutputsHeadingIff`).
* Example input "immediately followed" by its output: other headings may stand
  between; the next example tag is its output or fetch (`InputPaired`), and a
  further example input is let through if and only if the last example tag was
  not one (`ExampleInIff`).
* A description: anything before the first heading will do, be it only a space,
  because the check for blanks tests the inputs (`DescriptionIff`,
  `BlankDescriptionIff`).
* Old names "only once": any number of times, and the last ones count
  (`OldNamesIff`, `OldNamesAreLast`).

## Model

| member | source | states |
|---|---|---|
| `StoreUndo.UndoOutputs` | src/blockchain_db/lmdb/db_lmdb.cpp:1266-1286 | Removing the outputs of a shaped transaction, last one first at the recorded indices, takes every bucket and the output list back to what they were before the transaction's outputs were added; the tables may have gaps, only no bucket may be kept empty. |
| `StoreUndo.UndoTransaction` | src/blockchain_db/blockchain_db.cpp:235-246 | Removing a clean transaction right after adding it restores all tables; the transaction is found under its hash in between. |
| `StoreUndo.UndoTransactions` | src/blockchain_db/blockchain_db.cpp:224-231 | The pop loop over a block's hashes in reverse undoes the add loop and yields the transactions in reverse order. |
| `StoreUndo.UndoBlockRecord` | src/blockchain_db/lmdb/db_lmdb.cpp:948-990 | Removing the top block undoes the block record and the height index, and the top block read before is the block added. |
| `StoreUndo.PopUndoesAdd` | src/blockchain_db/blockchain_db.cpp:219-233 | pop_block right after an accepted add_block of clean transactions returns the block, its transactions in reverse and the whole store as it was. |
| `StoreAccount.RestoredOnlyIfClean` | src/blockchain_db/blockchain_db.cpp:136-153 | If the store comes back the same, every transaction of the block had supported inputs only and was shaped (by counting index records and amount-0 outputs); nothing is asked of the store. |
| `StoreAccount.PopUndoesAddIff` | src/blockchain_db/blockchain_db.cpp:161-233 | For every accepted block, on any store that keeps no empty bucket: pop restores the store and returns the block and the reversed transactions if and only if all its transactions are clean, which can be checked before adding. |
| `StoreAccount.ZeroShortfall` | src/blockchain_db/lmdb/db_lmdb.cpp:1280-1285 | A transaction never takes out more amount-0 outputs than it put in, and as many if and only if every output is removed from the bucket it was stored in. |
| `StoreAccount.EntryShortfall` | src/blockchain_db/lmdb/db_lmdb.cpp:1280-1285 | The same for a block with supported inputs: as many if and only if all its transactions are shaped. |
| `StoreAccount.PopEntryAccount` | src/blockchain_db/blockchain_db.cpp:224-246 | Popping a block's transactions off any store that is as the add left it but for the outputs restores the transaction tables, the spent set and the chain, takes as many rows off the output list as the block put on, and out of bucket 0 rows it held, as many as the removal looks for there. |
| `StoreAccount.EntryGains` | src/blockchain_db/blockchain_db.cpp:184-199 | What an accepted block adds: rows of the output list, rows at the end of bucket 0 with ids not given out before, and index records, one for each transaction exactly when all inputs are supported. |
| `StoreInvariant.AllOutputs` | src/blockchain_db/blockchain_db.cpp:124-158 | After the output loop the buckets are dense and in chain order, only grew at the end, and every returned index points at its own output: under amount 0 with a commitment to its amount if the version is at least 2 and an input is gen, otherwise under its own amount, with its own commitment if that is 0; unlocking with the transaction before version 3 and by itself from then on; with its key, the height, an output id and its owner. |
| `StoreInvariant.AddTransactionConsistent` | src/blockchain_db/blockchain_db.cpp:71-159 | Every accepted transaction with supported inputs keeps the tables consistent: dense keys, the height index, chain order, each index record pointing at its own outputs, and spent images exactly the disjoint union of the stored transactions' images. |
| `StoreInvariant.AddBlockConsistent` | src/blockchain_db/blockchain_db.cpp:161-217 | Every accepted block with supported inputs keeps the tables consistent. |
| `StoreInvariant.AddBlockDense` | src/blockchain_db/lmdb/db_lmdb.cpp:861-946 | Every accepted block, of supported inputs or not, keeps the block and transaction tables numbered without a gap. |
| `StoreInvariant.RollbackRestoresIff` | src/blockchain_db/blockchain_db.cpp:102-120 | When an unsupported input is met and the call returns, the store is unchanged if and only if no image behind that input had been spent before. |
| `StoreAccepts.AddTransactionOutcome` | src/blockchain_db/blockchain_db.cpp:71-159 | What every transaction comes to on tables without gaps, told before the call: KEY_IMAGE_EXISTS if an image before the first unsupported input is spent or repeated; otherwise the rollback if there is such an input; otherwise TX_EXISTS for a known hash; otherwise a database error if an output is not to a key, or is of amount 0 in version 1; otherwise it is accepted. |
| `StoreAccepts.RecordOutcome` | src/blockchain_db/lmdb/db_lmdb.cpp:861-946 | The block record throws BLOCK_EXISTS for a block on the chain, a database error for a parent that is not, BLOCK_PARENT_DNE for a parent that is not the top, and otherwise appends the block with its data, the running count and its height. |
| `StoreAccepts.AddBlockIff` | src/blockchain_db/blockchain_db.cpp:161-217 | On consistent tables a block with supported inputs is accepted if and only if it has as many hashes as transactions, its hash is new, its parent is the top, and all its transactions, the miner's among them, have new and distinct hashes, unspent images none of which is named twice, and storable outputs. |
| `StoreBlacklist.BlockFlags` | src/blockchain_db/blockchain_db.cpp:155-156 | An accepted block puts on the blacklist exactly the output indices recorded for its staking transactions of version 2 or later, the miner's included. |
| `StoreRuns.PopOutcome` | src/blockchain_db/blockchain_db.cpp:219-233 | On a replayed store a pop throws BLOCK_DNE if there is no block, and of a shaped block gives the block, its transactions in reverse and the replay of the blocks below. |
| `StoreRuns.RemoveOutcome` | src/blockchain_db/blockchain_db.cpp:235-246 | On consistent tables removing a transaction that is not on file throws TX_DNE; one that is on file has its index record. |
| `StoreRuns.PopMissing` | src/blockchain_db/blockchain_db.cpp:224-231 | The pop loop ends with a database error if the last transaction listed is not on file, whatever the store. |
| `StoreRuns.RunIsReplay` | src/blockchain_db/blockchain_db.cpp:161-246 | After every run of adds and pops, accepted or not, whose blocks have supported inputs and whose popped blocks are shaped, the store equals a replay of the surviving blocks onto an empty store, and it is consistent. |
| `StoreRuns.PopReplayedIff` | src/blockchain_db/blockchain_db.cpp:219-246 | A pop, accepted or not, leaves a replayed store replayed if and only if the block it takes off, if any, is shaped. |
| `StoreRuns.RunIsReplayIff` | src/blockchain_db/blockchain_db.cpp:161-246 | The store is the replay of the surviving blocks at every point of a run if and only if every block the run pops is shaped. |
| `StoreRuns.RunPopUndoesAddIff` | src/blockchain_db/blockchain_db.cpp:161-246 | After every run of adds and pops, with unsupported inputs and misshapen pops included: popping an accepted block gives back the store, the block and its reversed transactions if and only if the block is clean. |
| `StoreRuns.PopConsistentIff` | src/blockchain_db/blockchain_db.cpp:219-246 | A pop, accepted or not, leaves a replayed store consistent if and only if the block it takes off, if any, is shaped. |
| `StoreRuns.RunConsistentIff` | src/blockchain_db/blockchain_db.cpp:124-246 | Over every run of blocks with supported inputs the tables are consistent at every point (dense buckets in chain order, index records pointing at their own outputs, exact spent set) if and only if every block the run pops is shaped. |
| `StoreRuns.TrailPop` | src/blockchain_db/blockchain_db.cpp:219-246 | In every run of blocks with supported inputs an accepted pop takes off the last surviving block and puts everything but the outputs back as it was before that block. |
| `StoreRuns.RunSpends` | src/blockchain_db/blockchain_db.cpp:102-120 | Over every run of blocks with supported inputs, shaped or not, the spent set is exactly the disjoint union of the key images of the stored transactions; so no image belongs to two of them and no pop unspends another's. |
| `StoreRuns.RunFiles` | src/blockchain_db/lmdb/db_lmdb.cpp:992-1091 | In every state such a run reaches the store holds, for height k, the k-th surviving block and each of its transactions under its hash with that height. |
| `StoreCount.FirstVersionStoresNoZero` | src/blockchain_db/lmdb/db_lmdb.cpp:1175-1239 | A first-version transaction whose outputs were all accepted has stored none of them under amount 0. |
| `StoreCount.BlockCount` | src/blockchain_db/blockchain_db.cpp:184-211 | For every accepted block num_rct_outs plus the stray outputs equals what the block puts into bucket 0 plus the over-count, so the two are equal if and only if stray outputs and over-count are; on a dense chain the running count grows by num_rct_outs. |
| `StoreCount.PlainBlock` | src/blockchain_db/blockchain_db.cpp:184-199 | With supported inputs a block has no stray outputs if and only if no ordinary transaction is filed as a coinbase with a non-zero amount, and no over-count if and only if its miner transaction is of the first version, a coinbase or all zero. |
| `StoreCount.RunCount` | src/blockchain_db/blockchain_db.cpp:128-211 | The same over every run of blocks with supported inputs, with what misshapen popped blocks left in bucket 0 added to the stray outputs. |
| `StoreCount.ResidueIff` | src/blockchain_db/lmdb/db_lmdb.cpp:1280-1285 | Popped blocks leave amount-0 outputs behind, never the reverse, and none if and only if all of them were shaped. |
| `StoreCount.PlainRunCount` | src/blockchain_db/blockchain_db.cpp:128-211 | In a run with coinbase miners and shaped pops the count recorded with the top block is the size of bucket 0 if and only if no ordinary transaction on the chain is filed as a coinbase with a non-zero amount. |
| `StoreExamples.RollbackUnspends` | src/blockchain_db/blockchain_db.cpp:108-119 | An unsupported input followed by an image that is already spent leaves that image unspent. |
| `StoreExamples.TwoGenSticks` | src/blockchain_db/blockchain_db.cpp:138-142 | A version 2 transaction with two gen inputs and a non-zero output is accepted and its removal then throws OUTPUT_DNE. |
| `StoreExamples.WrongOutputRemoved` | src/blockchain_db/lmdb/db_lmdb.cpp:1282-1285 | With another transaction's output of the same amount in the store, that removal succeeds, deletes the other output and leaves its own under amount 0. |
| `StoreExamples.InconsistentRun` | src/blockchain_db/blockchain_db.cpp:219-246 | Adding a block with a plain miner transaction and one with the two-gen transaction, then popping, leaves the output list with a gap. |
| `StoreExamples.StrayCoinbaseUncounted` | src/blockchain_db/blockchain_db.cpp:191-199 | A clean block with a coinbase among its ordinary transactions counts 0 outputs and stores one under amount 0. |
| `StoreExamples.SpendingMinerOvercounted` | src/blockchain_db/blockchain_db.cpp:185-187 | A clean block whose version 2 miner transaction spends instead of generating counts 1 output and stores none under amount 0. |
| `BlockchainDb.BlockchainDb.AddSpentKey` | src/blockchain_db/lmdb/db_lmdb.cpp:1386-1401 | An image already in the set makes the call throw; otherwise it is added. |
| `BlockchainDb.BlockchainDb.RemoveSpentKeys` | src/blockchain_db/blockchain_db.cpp:238-242 | Exactly the images among the inputs leave the set; absent ones are no error. |
| `BlockchainDb.BlockchainDb.SpendInputs` | src/blockchain_db/blockchain_db.cpp:102-120 | The input loop throws exactly when an image before the first unsupported input is spent or repeated, rolls back exactly when it meets an unsupported input, and otherwise adds all images and reports whether there is a gen input. |
| `BlockchainDb.BlockchainDb.AddOutput` | src/blockchain_db/lmdb/db_lmdb.cpp:1175-1239 | Appends to the output list and to the end of the amount's bucket and returns the bucket's old size; throws on a target that is not a key and on amount 0 without a commitment. |
| `BlockchainDb.BlockchainDb.RemoveOutput` | src/blockchain_db/lmdb/db_lmdb.cpp:1288-1333 | Deletes the output at an amount and index from both tables, or throws OUTPUT_DNE, or a database error when the output list lacks it. |
| `BlockchainDb.BlockchainDb.AddOutputs` | src/blockchain_db/blockchain_db.cpp:124-153 | The output loop, with the amount and commitment rules of coinbase and later versions, computes the tables and indices of the specification or throws its error. |
| `BlockchainDb.BlockchainDb.RemoveOutputs` | src/blockchain_db/lmdb/db_lmdb.cpp:1266-1286 | The removal loop from the last output down computes the tables of the specification or throws its error. |
| `BlockchainDb.BlockchainDb.AddTransactionData` | src/blockchain_db/lmdb/db_lmdb.cpp:992-1091 | Records the transaction under the next id with its height and unlock time, and throws TX_EXISTS for a hash already there. |
| `BlockchainDb.BlockchainDb.AddTransaction` | src/blockchain_db/blockchain_db.cpp:71-159 | The whole new state is that of the specification, or the error is; the blacklist gains the indices of a staking transaction's outputs once they are placed, even if the index record then throws, and nothing else. |
| `BlockchainDb.BlockchainDb.RemoveTransaction` | src/blockchain_db/blockchain_db.cpp:235-246 | The whole new state is that of the specification, or the error is. |
| `BlockchainDb.BlockchainDb.AddBlockRecord` | src/blockchain_db/lmdb/db_lmdb.cpp:861-946 | Appends the block with the running count and its height, or throws for a known block, an unknown parent or a parent that is not the top. |
| `BlockchainDb.BlockchainDb.CountZeroAmounts` | src/blockchain_db/blockchain_db.cpp:194-197 | Adds the number of a transaction's outputs whose own amount is 0. |
| `BlockchainDb.BlockchainDb.AddTransactions` | src/blockchain_db/blockchain_db.cpp:189-199 | The transaction loop reaches the specified state, count of zero amounts and blacklist, or stops at the first error. |
| `BlockchainDb.BlockchainDb.AddBlockTransactions` | src/blockchain_db/blockchain_db.cpp:184-199 | Miner transaction first, then the others; returns the specified num_rct_outs and blacklist. |
| `BlockchainDb.BlockchainDb.AddBlock` | src/blockchain_db/blockchain_db.cpp:161-217 | The whole new state and blacklist are those of the specification and the height before is returned, or the error is the specified one. |
| `BlockchainDb.BlockchainDb.PopBlock` | src/blockchain_db/lmdb/db_lmdb.cpp:4418-4431 | pop_block inside its write transaction: on an error nothing has changed; otherwise state, block and popped transactions are those of the specification, to which the undo theorems apply. |
| `BlockchainDb.BlockchainDb.PopBlockUnguarded` | src/blockchain_db/blockchain_db.cpp:219-233 | Block first, then its transactions in reverse, then the miner transaction; the blacklist is not touched. |
| `BlockchainDb.BlockchainDb.PopBlockTransactions` | src/blockchain_db/blockchain_db.cpp:224-232 | The transactions in reverse, then the miner's, reach the specified state and list, or throw the specified error. |
| `BlockchainDb.BlockchainDb.RemoveBlock` | src/blockchain_db/lmdb/db_lmdb.cpp:948-990 | Returns the top block and deletes its row and its height, or throws when there is none. |
| `BlockchainDb.BlockchainDb.PopTransactions` | src/blockchain_db/blockchain_db.cpp:224-231 | The reverse loop reaches the specified state and list, or throws the specified error. |
| `DifficultyWindow.WindowStart` | src/blockchain_db/blockchain_db.cpp:427-428 | The window starts at height 1 or later, so genesis is never in it. |
| `DifficultyWindow.ListsWindow` | src/cryptonote_config.h:300-317 | The window the fill computes is, by numbers, the last 61 blocks below the fork height, the last 60 from it on, and all blocks but genesis on a shorter chain. |
| `DifficultyWindow.RefillLists` | src/blockchain_db/blockchain_db.cpp:419-445 | With no height cached, another height than the last, or a vector longer than the block count of 61 or 60, the fill lists that window whatever the vectors held. |
| `DifficultyWindow.WindowMoves` | src/cryptonote_config.h:300-317 | Appending the new top block and dropping the oldest down to 61 blocks before the fork and 60 from it on moves one window to the next, also where the count falls. |
| `DifficultyWindow.ExtendLists` | src/blockchain_db/blockchain_db.cpp:437-445 | With the previous height's window in the vectors, the incremental fill lists the new window. |
| `DifficultyWindow.FillListsIff` | src/blockchain_db/blockchain_db.cpp:402-446 | In every sound state at height two or more the fill equals the window from scratch if and only if no left-over vectors are in the way. |
| `DifficultyWindow.RunFills` | src/cryptonote_core/blockchain.cpp:1024-1040 | After every run from genesis whose earlier fills were right, the next fill is right under exactly that condition. |
| `DifficultyWindow.AllFillsIff` | src/cryptonote_core/blockchain.cpp:1024-1040 | Over every run of adds, pops and fills, all fills at height two or more are right if and only if none is asked for while left-over vectors are there. |
| `DifficultyWindow.LeftOverReached` | src/blockchain_db/blockchain_db.cpp:408-410 | A five-step run in which the vectors end up with a popped block's timestamp in front of the right one. |
| `DifficultyWindow.PowCache.Trim` | src/cryptonote_basic/difficulty.cpp:89-93 | Erasing from the front leaves the last `count` entries. |
| `DifficultyWindow.PowCache.AddLatest` | src/cryptonote_basic/difficulty.cpp:76-94 | Appends to both vectors and keeps the last `count` entries of each. |
| `DifficultyWindow.PowCache.Refill` | src/blockchain_db/blockchain_db.cpp:421-435 | The loop lists the blocks from the start height up to, not including, the latest. |
| `DifficultyWindow.PowCache.FillForPow` | src/blockchain_db/blockchain_db.cpp:402-446 | The method on the vectors computes the fill the run theorems are about; in every sound state at height two or more they then list exactly the last 61 or 60 blocks, genesis left out, if and only if no left-over vectors were in the way. |
| `Checkpoints.FindFirst` | src/blockchain_db/lmdb/db_lmdb.cpp:4354-4377 | The height-by-height search finds the nearest row from the start towards the end, and nothing exactly when no row lies between. |
| `Checkpoints.StepForward` | src/blockchain_db/lmdb/db_lmdb.cpp:4379-4413 | The forward cursor collects, in order, the rows up to the bound, at most as many as asked for. |
| `Checkpoints.StepBackward` | src/blockchain_db/lmdb/db_lmdb.cpp:4379-4413 | The backward cursor collects them in reverse. |
| `Checkpoints.GetCheckpointsRange` | src/blockchain_db/lmdb/db_lmdb.cpp:4329-4416 | The query returns the clamped slice of the table in the direction asked, cut to the number asked; 0 means no limit. |
| `CheckpointRange.RangeIs` | src/blockchain_db/lmdb/db_lmdb.cpp:4329-4416 | The answer for every table, both directions and every limit: the rows between the two heights, from the first towards the second, all of them or the nearest `num`; the lowest row if both heights lie below the table, the highest if both lie above. |
| `Checkpoints.TopTwo` | src/blockchain_db/lmdb/db_lmdb.cpp:4329-4416 | At or above the lowest checkpoint, the query from h down to 0 for two brings back the at most two highest rows at or below h, highest first. |
| `Checkpoints.ClampedQuery` | src/blockchain_db/lmdb/db_lmdb.cpp:4339-4347 | Below the lowest checkpoint the same query brings back that checkpoint. |
| `Checkpoints.AnswerFromAbove` | src/blockchain_db/blockchain_db.cpp:345-353 | A table with one hard-coded checkpoint at height 5, asked at height 0, answers with it although nothing there is final. |
| `Checkpoints.GetImmutableCheckpoint` | src/blockchain_db/blockchain_db.cpp:336-369 | The method answers what the finality theorems are about. |
| `Checkpoints.ImmutableIsHighestFinalIff` | src/blockchain_db/blockchain_db.cpp:345-368 | For every table and height the answer is the highest checkpoint at or below it that is hard-coded or has another above it, and none when there is none, if and only if the query is not below a hard-coded lowest checkpoint. |
| `Checkpoints.LookbackSuffices` | src/blockchain_db/blockchain_db.cpp:349-364 | Looking at two rows decides finality of the whole table. |
| `Checkpoints.PutHas` | src/blockchain_db/lmdb/db_lmdb.cpp:4240-4258 | Storing a checkpoint keeps the table sorted, replaces the row of its height and changes no other. |
| `Checkpoints.FinalityStaysIff` | src/blockchain_db/blockchain_db.cpp:345-368 | The answer never moves back, whatever is stored later and however the height grows, if and only if it was not asked below a hard-coded lowest checkpoint. |
| `Checkpoints.FinalityNeverMovesBack` | src/blockchain_db/blockchain_db.cpp:336-369 | Over every run that stores checkpoints in any order without weakening a hard-coded one, a later query at the same or a greater height gives no lower answer and does not lose one. |
| `QuorumMesh.PathsAre` | utils/generate-quorum-matrix.py:38-52 | The path count is one for a direct link plus the number of common neighbours, and the same from either end. |
| `QuorumMesh.PathsGrow` | utils/generate-quorum-matrix.py:38-52 | Adding connections never lowers a pair's count. |
| `QuorumMesh.LeastPathsGrow` | utils/generate-quorum-matrix.py:92-99 | The minimum never falls. |
| `QuorumMesh.PathsBound` | utils/generate-quorum-matrix.py:38-52 | No matrix gives a pair more than n - 1 paths. |
| `QuorumMesh.FullyLinked` | utils/generate-quorum-matrix.py:38-52 | When every pair is linked, each has n - 1 paths. |
| `QuorumMesh.AllPairsSize` | utils/generate-quorum-matrix.py:94-95 | There are n(n-1)/2 pairs, which bounds the rounds. |
| `QuorumMesh.Survives` | utils/generate-quorum-matrix.py:38-52 | If every pair has at least `target` paths, deleting any fewer nodes leaves every surviving pair connected within two hops. |
| `QuorumMesh.CutExists` | utils/generate-quorum-matrix.py:38-52 | The bound is tight: an unlinked pair is disconnected by deleting as many nodes as it has paths. |
| `MeshBuilder.Neighbours` | utils/generate-quorum-matrix.py:42-48 | The two loops list the nodes linked to j, without repetition. |
| `MeshBuilder.CountPathsWithinTwo` | utils/generate-quorum-matrix.py:38-52 | The loop counts the distinct intermediates on paths of at most two hops. |
| `MeshBuilder.MinWithinTwo` | utils/generate-quorum-matrix.py:92-99 | The true minimum over all pairs, and nothing exactly for fewer than two nodes. |
| `MeshBuilder.CountNotWithinTwo` | utils/generate-quorum-matrix.py:102-108 | The number of pairs with at most the given number of paths. |
| `MeshBuilder.CandidateBeatsSentinel` | utils/generate-quorum-matrix.py:127-137 | Every candidate's degree sum is at most 2n - 2, so it beats the initial 2n. |
| `MeshBuilder.TryEdge` | utils/generate-quorum-matrix.py:135-141 | Setting a connection, counting and resetting it leaves the matrix as it was and gives the count with the connection. |
| `MeshBuilder.ChooseEdge` | utils/generate-quorum-matrix.py:127-141 | The scan leaves the matrix as it was and picks the first pair in row-major order with the least (degree sum, deficient pairs), and (0,0) only when no pair is left to connect. |
| `MeshBuilder.CandidateExists` | utils/generate-quorum-matrix.py:126-128 | While the minimum is below n - 1 a pair is left to connect, so the sentinel choice is never taken. |
| `MeshBuilder.Round` | utils/generate-quorum-matrix.py:126-158 | Each round adds exactly one new connection, the first cheapest one, links one more pair, keeps the mesh free of self-loops and doubled edges, and returns the new minimum, which is no lower. |
| `MeshBuilder.BuildMesh` | utils/generate-quorum-matrix.py:118-158 | For every n and target at most n - 1 the loop ends within n(n-1)/2 rounds with at least `target` paths between every pair, no self-loop and no doubled edge; its trace lists the connections in order, each made while the least path count was below the target, and each the first cheapest one on the mesh made so far. |
| `MeshBuilder.OneGreedyMesh` | utils/generate-quorum-matrix.py:126-158 | There is only one such trace that ends when every pair has its paths, so the generated mesh is settled by n and the target. |
| `MeshOpening.Opening` | utils/generate-quorum-matrix.py:127-144 | On three nodes or more every greedy mesh begins with the connections (0, 1) and (1, 2). |
| `MeshBuilder.TargetOutOfReach` | utils/generate-quorum-matrix.py:126 | With two nodes or more and a larger target the exit test fails whatever the matrix. |
| `MeshBuilder.QuorumMeshFor` | utils/generate-quorum-matrix.py:25-29 | The generated mesh is the greedy one for four paths up to ten nodes, which survives any three failures, and the greedy one for two paths above, which survives any one. |
| `TxExtra.Cut` | utils/parse-tx-extra.py:38-39 | A slice and what is left are the string, also for a negative or too large bound. |
| `TxExtra.Round` | utils/parse-tx-extra.py:153-157 | A completed round leaves at least two characters less. |
| `TxExtra.CutAppend` | utils/parse-tx-extra.py:54-55 | A slice at its full length does not depend on what follows. |
| `TxExtra.RoundAppend` | utils/parse-tx-extra.py:97-157 | A round whose slices have full length gives the same record whatever follows, and leaves that behind its own rest. |
| `TxExtra.DecodeAppend` | utils/parse-tx-extra.py:153-157 | If every round of a completes with slices at full length, decoding a followed by b gives the records of a, then what b decodes to, error included: the sufficient half of the next row. |
| `TxExtraCompose.DecodeComposesIff` | utils/parse-tx-extra.py:153-157 | For every string a: decoding a followed by any hex string gives what a and then that string decode to if and only if every round of a completes with each slice at its full length. |
| `TxExtraCompose.RoundStarved` | utils/parse-tx-extra.py:97-157 | A completed round with a slice that is not full, fed "f" (a nonce "fff"), raises, eats that, too, or gives another record. |
| `TxExtraOutcome.RoundRaises` | utils/parse-tx-extra.py:36-157 | For every hex string a round raises exactly what the characters at their positions say: an unknown or unhandled tag, a nonce size or field number that is not decimal, an unknown nonce or name type, a missing value size, half a byte at the end of a burn; and nothing otherwise. |
| `TxExtraOutcome.DecodedFlags` | utils/parse-tx-extra.py:116-129 | In every decoded name-system record, of any string, the low four bits of the field number are the sum of 1, 2, 4 and 8 for the owner, backup owner, signature and encrypted value that are there. |
| `TxExtraReading.RoundReads` | utils/parse-tx-extra.py:36-157 | On every hex string a completed round gives the characters at the positions and widths of the record's fields, cut short where the string ends, and leaves what stands behind. |
| `TxExtraRoundTrip.LittleEndianRoundTrip` | utils/parse-tx-extra.py:132-136 | Reading little-endian bytes gives back the number written. |
| `TxExtraRoundTrip.SizeByteAgreesIff` | utils/parse-tx-extra.py:50 | Reading the size byte as decimal gives its value exactly for values below ten. |
| `TxExtraRoundTrip.ReadNonce` | utils/parse-tx-extra.py:48-56 | A nonce written with a decimal size is read back. |
| `TxExtraRoundTrip.ReadOnsData` | utils/parse-tx-extra.py:97-130 | A name-system record with any combination of optional parts is read back, if the low bits of its field number, written in decimal, are the sum of 1, 2, 4 and 8 for the parts that are there. |
| `TxExtraRoundTrip.ReadRecord` | utils/parse-tx-extra.py:154-157 | Any record that fits is read back by one round that consumes all of it. |
| `TxExtraRoundTrip.DecodeWriteAll` | utils/parse-tx-extra.py:153-157 | Every list of records that fit, written one after the other, is decoded to that list. |
| `TxExtraRewrite.RoundBack` | utils/parse-tx-extra.py:154-157 | Any round that completes with each slice at its full length gives a record that fits, and the string is that record written, up to the case of letters, followed by what is left. |
| `TxExtraRewrite.WriteDecoded` | utils/parse-tx-extra.py:153-157 | For every string all of whose rounds complete with full slices, every decoded record fits and writing the records gives the string back up to the case of letters. |
| `TxExtraExamples.ShortBurn` | utils/parse-tx-extra.py:134-135 | A burn cut short completes, takes what follows for more of its amount and does not compose. |
| `TxExtraExamples.NegativeRound` | utils/parse-tx-extra.py:50-55 | A nonce of size 00 takes all but the last two characters that follow it. |
| `TxExtraExamples.NegativeSize` | utils/parse-tx-extra.py:50-55 | So it does not compose with anything longer than two characters. |
| `TxExtraDecoder.Decoder.Eat` | utils/parse-tx-extra.py:38-39 | Cuts the list; what was eaten followed by what is left stays the input. |
| `TxExtraDecoder.Decoder.EatPubkeyData` | utils/parse-tx-extra.py:36-40 | Reads the record of the specification and leaves its rest. |
| `TxExtraDecoder.Decoder.EatNonceData` | utils/parse-tx-extra.py:48-56 | The same, with the bad number and the unknown nonce tag as errors. |
| `TxExtraDecoder.Decoder.EatOnsGenericOwner` | utils/parse-tx-extra.py:81-94 | Reads four fields in order. |
| `TxExtraDecoder.Decoder.EatOnsFixed` | utils/parse-tx-extra.py:99-113 | Reads the fixed part, with its two error cases. |
| `TxExtraDecoder.Decoder.EatEncryptedValue` | utils/parse-tx-extra.py:124-129 | Reads a value whose size byte is hexadecimal. |
| `TxExtraDecoder.Decoder.EatOnsData` | utils/parse-tx-extra.py:97-130 | Reads the fixed part and the parts its flags announce, as `DecodedFlags` and `RoundReads` settle them. |
| `TxExtraDecoder.Decoder.EatBurnData` | utils/parse-tx-extra.py:132-141 | Reads up to eight bytes as a little-endian number; half a byte is an error. |
| `TxExtraDecoder.Decoder.EatRecord` | utils/parse-tx-extra.py:154-157 | One round; when it completes the list is at least two characters shorter. |
| `TxExtraDecoder.Decoder.DecodeAll` | utils/parse-tx-extra.py:153-157 | On every hex string the loop ends with the specified records and outcome, having eaten everything unless it stopped, and eaten slices plus the rest are the input. |
| `RpcComments.StepLands` | docs/daemon-rpc/rpc-to-markdown.py:175-263 | One line keeps every part holding exactly the lines its tag governs, the examples in tag order without overlap, and no example tag forgotten. |
| `RpcComments.RunLands` | docs/daemon-rpc/rpc-to-markdown.py:175-263 | So in every reachable state; in particular the output mode has an example to add to and the input mode a pending input. |
| `RpcLanding.HeldFits` | docs/daemon-rpc/rpc-to-markdown.py:250-263 | Each part and each example's input and output holds, in order, exactly the text lines governed by its tag. |
| `RpcLanding.BlankBetween` | docs/daemon-rpc/rpc-to-markdown.py:246-248 | A text line read between sections is blank. |
| `RpcLanding.LandsOnce` | docs/daemon-rpc/rpc-to-markdown.py:175-282 | In an accepted block every text line is held once, in order, in one place; exactly the lines between sections are held nowhere, and those are blank. |
| `RpcRules.InputsHeadingIff` | docs/daemon-rpc/rpc-to-markdown.py:181-189 | An Inputs heading is let through if and only if no "Inputs: none" came before and every earlier line under an Inputs heading is empty. |
| `RpcRules.OutputsHeadingIff` | docs/daemon-rpc/rpc-to-markdown.py:191-194 | An Outputs heading is let through if and only if every earlier line under an Outputs heading is empty. |
| `RpcRules.ExampleInIff` | docs/daemon-rpc/rpc-to-markdown.py:196-200 | An example input is let through if and only if the last example tag before it is not an example input. |
| `RpcRules.InputPaired` | docs/daemon-rpc/rpc-to-markdown.py:196-239 | In every accepted block an example input is paired with the next example tag, and that is an output or a fetch. |
| `RpcRules.DescriptionIff` | docs/daemon-rpc/rpc-to-markdown.py:267-268 | The description check passes if and only if some line before the first heading is not empty. |
| `RpcRules.BlankDescriptionIff` | docs/daemon-rpc/rpc-to-markdown.py:267-268 | The description of an accepted block is blank if and only if every line before the first heading is. |
| `RpcRules.OldNamesIff` | docs/daemon-rpc/rpc-to-markdown.py:241-244 | An old-names line is let through if and only if it names something and all names are plain, whatever came before. |
| `RpcRules.OldNamesAreLast` | docs/daemon-rpc/rpc-to-markdown.py:241-244 | The old names are those of the last such line, or none. |
| `RpcRules.LaxAccepted` | docs/daemon-rpc/rpc-to-markdown.py:166-282 | A block with a blank description, two Inputs and two Outputs headings, a heading between an example's input and output, and old names twice is accepted. |
| `RpcRules.LaxBlock` | docs/daemon-rpc/rpc-to-markdown.py:166-282 | There is such a block. |
| `RpcAcceptance.StepIff` | docs/daemon-rpc/rpc-to-markdown.py:181-263 | Whether a line is let through and what is reported if not, for every kind of line, read off the lines before it: for an output or fetch, whether "Inputs: none" was said or something stands under the open example input. |
| `RpcAcceptance.RunIff` | docs/daemon-rpc/rpc-to-markdown.py:175-263 | The parser gets through a block if and only if each line is let through by those before it. |
| `RpcAcceptance.RunStopsAt` | docs/daemon-rpc/rpc-to-markdown.py:175-263 | Otherwise the error is that of the first line that is not. |
| `RpcAcceptance.AcceptedIff` | docs/daemon-rpc/rpc-to-markdown.py:175-299 | A block is accepted if and only if, besides, some line before the first heading is not empty; "Inputs: none" is said or some line under Inputs is not blank; some line under Outputs is not blank; no example input is open at the end; every written example output and, unless inputs are none, every example input is not blank; and NO_ARGS comes with "Inputs: none". |
| `RpcAcceptance.ExamplesInOrder` | docs/daemon-rpc/rpc-to-markdown.py:202-239 | The examples are those of the output and fetch tags, one each, in the order of the lines. |
| `RpcParser.AddLine` | docs/daemon-rpc/rpc-to-markdown.py:246-263 | Adding a text line to the strings agrees with adding its position to the part. |
| `RpcParser.AddExampleLine` | docs/daemon-rpc/rpc-to-markdown.py:259-263 | The same for a line of an example. |
| `RpcParser.EndExample` | docs/daemon-rpc/rpc-to-markdown.py:202-239 | Pairing the pending input with an output agrees, with its error. |
| `RpcParser.ReadLine` | docs/daemon-rpc/rpc-to-markdown.py:181-263 | One round of the loop on the strings agrees with the step on positions, errors included. |
| `RpcParser.GoodExamples` | docs/daemon-rpc/rpc-to-markdown.py:279-282 | True exactly when no example has a blank output, nor a blank or missing input unless inputs are none. |
| `RpcParser.ParseBlock` | docs/daemon-rpc/rpc-to-markdown.py:166-282 | The loop and the checks on the strings, with the NO_ARGS check that follows, accept a block exactly by the conditions of `AcceptedIff`, read off the lines, and give the texts of the parts; otherwise the error of the first line not let through, or the list of problems. |
| `RpcParser.AcceptedTexts` | docs/daemon-rpc/rpc-to-markdown.py:265-282 | In an accepted block description, inputs and outputs are the concatenations of the lines under their headings, inputs are none exactly if that is said, with nothing non-empty lost to it, the old names are the last ones, and no example has a blank output or, unless inputs are none, a blank input. |
| `RpcParser.AcceptedExamples` | docs/daemon-rpc/rpc-to-markdown.py:202-239 | It has one example for each output or fetch tag, in order: as output the lines under the tag or what was fetched, as input the lines under the example input open there, if any. |
| `RpcParser.AddNotes` | docs/daemon-rpc/rpc-to-markdown.py:284-292 | The admin note unless the endpoint is public, then the old-names note with one line for each name, are appended to the description. |
| `RpcParser.NoteIs` | docs/daemon-rpc/rpc-to-markdown.py:288-292 | No old-names note without names, one in the singular for one name, one in the plural for more, ending with the line of the last name. |
| `RpcParser.DocumentBlock` | docs/daemon-rpc/rpc-to-markdown.py:166-299 | A block accepted by those same conditions is documented with the text before the first heading, the admin note unless the endpoint is public, and the note on the names given last; one that is not gives the error of its first refused line, or the problems. |

## Left out

- Blobs, hashing, commitments and signatures: hashes, keys, masks and images are numbers that are only compared; a block's or transaction's hash is a field, and a commitment is a tag saying what it commits to.
- The parallel vectors of unlock times and commitments are stored with each output, so a vector of the wrong length is not modelled.
- Pruning: the pruned and prunable transaction tables are one table, and get_tx and get_pruned_tx read the same row.
- The output blacklist's sorted storage and its use; what an accepted add puts on it is stated, and that pops do not take it off.
- Reading a recorded index list that is shorter than the outputs or missing counts as a database error; the original reads past the end.
- Map size limits, environment errors and concurrent readers; a call that throws leaves its partial writes to the write transaction that is aborted.
- Batches: an add has no write transaction of its own, so in the original a throw aborts the whole batch, earlier blocks included; a run here takes back the one add that throws.
- 64-bit wrap-around of heights, counts and amounts; all are unbounded numbers.
- The difficulty formula next_difficulty_v2 and the shared cache lock; hard fork 16 is a height that is a parameter of the run.
- Checkpoint signatures: only whether there are any is kept, which is what decides the kind when a checkpoint is read back; the checks after the range query that its clamped bounds make dead are omitted.
- Runs that add blocks with unsupported inputs: such a transaction is not stored; its effect is stated for one add, and for one add followed by a pop.
- Rendering of the matrix, tracing and the generated C++ text.
- Tx-extra input that is not a hex string; the printing of records.
- Regular expressions and JSON in the comment parser: a line is given by its tag class, a fetch by its result; the checks on the text of a fetched example's input are part of that result.
- White space beyond the ASCII space and tab to carriage return: the original's isspace also accepts the separators 0x1c to 0x1f, 0x85, 0xa0 and other Unicode spaces.
- Grouping endpoints into categories, sorting, reading several files and writing Markdown.
