# Verified model of the KRC-721 indexer

The indexer follows the Kaspa virtual chain. It reads token operations (deploy, mint,
transfer, discount, list, send) out of the accepted transactions, applies them to about
twenty tables, and takes them back when the chain reorganises. This project models the
processor with its tables, the random token-id allocator, the score and key encodings its
scans rely on, the reconstruction of mergesets, the read views and paging, and the
snapshot archive, and proves what they promise. `dafny verify dfyconfig.toml` checks it.

## How it is built

- `Model` has the values; `Ledger`, `TokenIds`, `Rollback`, `Counters`, `Score` and `Chain`
  are the specification: total functions on a value that holds one table per field, where a
  panic or an error that drops the write transaction is a result of its own.
- `Store` is the write transaction as an object with one field for each partition.
  `TokenIdSteps`, `Operations`, `Removal` and `Processor` are the methods of the processor:
  they change these fields step by step, with the loops of the original, and are proved
  against the specification. `Processor.Processor` adds commit, drop and the queue; its
  invariant is that the store is what the applied changes make of empty tables.
- `Invariants`, `Preservation` and `Steps` prove what every reachable state keeps.
- `Filtering`, `MarketReorg`, `SupplyReorg`, `OwnerReorg`, `Reorg` and `ReorgIsReplay` prove
  that a rollback to a threshold is the replay of the operations below it; `ChainReplay` and
  `ChainTheorem` lift this to whole runs of chain changes.
- `Protocol` states the token rules on what a holder can observe, without any table, and
  proves that the tables follow them; `Guarantees` and `ChainIndexes` draw the promises
  about supply, marketplace and chain indexes from all of this.
- `Residues`, `Conservation` and `ChainCounters` treat what a rollback does not restore,
  with the exact conditions; `StaleRows` says which rows are left over after any run, and
  `Leftovers` has runs that leave some.
- `Keys` and `RowKeys` relate byte keys to the scans the specification speaks of, and `Scans`
  carries this to every reachable state. The discount lookup of a mint is the byte-range
  scan of `FeeKeys` itself; `FeeScan` proves what it finds. `ScriptKeys` has the other keys
  that hold a script.
- `TokenHistory` proves that the ownership history is what the log says. `Drawing`,
  `LogCounts`, `LogTables` and `Survival` say on tables, log and blocks alone what the
  specification selects, counts, registers and keeps: which id an entropy draws, what the
  counters hold, what is registered, and which blocks survive.
- `Mergesets`, `MergesetOrder`, `Entropy`, `Assembly`, `FreeRanges`, `Pages`, `Lists`,
  `Archive`, `ArchiveWriting` and `Restoring` model the remaining algorithms.

## What is taken for granted

A run starts from an empty database. In the surviving chain blue scores rise strictly,
block hashes and transaction ids are distinct, blue scores are small enough for their
scores to fit in 64 bits, block index and transaction index are within the merge-set
limit and the block capacity. The envelope analyzer checks that deployments satisfy
premint <= max < u64::MAX, and makes the receiver of every mint and discount the script
of an address or of the sender's public key (`nexus/src/analyzer.rs:225-345`). A block
with the blue score of the tip is stored or not delivered; all other mergesets of a
change may be new, stored, below the tip or listed twice, in any mixture. Write
transactions are atomic. The merge-set limit is a constant of the consensus library and
a parameter here; everything is proved for any limit.

## Where the code does less than it seems to

- Rolling back a deployment does not take its premints off the mint counter
  (`nexus/src/processor.rs:745-748`). `PremintsStayCounted` has the runs, `CountersConserve`
  says by how much it is too high, `RollbackConserves` exactly when it is right.
- Rolling back leaves the rows of the discount log (`nexus/src/processor.rs:1643-1662`).
  Nothing reads them but the next rollback, which then finds nothing to take out.
  `ReorganisationLeavesRows` is a run that leaves such a row, `DiscountLogExactIff` says
  exactly when the log is exact.
- Restoring the listing of an undone sale over a later listing by another seller leaves
  that seller's index row behind (`nexus/src/processor.rs:839-911`). `ReorganisationLeavesRows`
  is a run that ends so, `SellerIndexExactIff` the exact condition for one rollback and
  `StaleRowsAreKnown` the rows left over after any run.
- A page limit of zero, which the arguments allow, gives pages that never advance
  (`nexus/src/accessor.rs:883-894`).

## Model

| member | source | states |
|---|---|---|
| ReorgIsReplay.RollbackIsReplay | nexus/src/processor.rs:354-387 | For every valid history and every threshold the removal does not panic, and the registry, deployments, mints, ownership changes, ownership history, current owners, address holdings, discounts in force, all three allocator tables, listings with their tick index, the log and the transaction index are those of processing only the operations below the threshold |
| ChainTheorem.RunIsCanonical | nexus/src/processor.rs:320-345 | Over any run of virtual chain changes (removed blocks, forced rollbacks, and mergesets of which any may be delivered again) no transaction aborts, and ledger and chain indexes are those of an indexer that was given the surviving blocks only |
| ChainTheorem.SameChainSameTables | nexus/src/processor.rs:320-345 | Two runs that end in the same chain end in the same ledger and chain indexes, token ids included, whatever reorganisations lay between |
| ChainTheorem.ChangeIsCanonical | nexus/src/processor.rs:320-345 | One chain change on a canonical store never aborts and leaves the store of the chain cut at the least removed or forced blue score and extended by the blocks that are new, whatever stored or old ones are delivered with them |
| ChainTheorem.RemovalIsCanonical | nexus/src/processor.rs:354-387 | A reorganisation leaves the store of the chain below the least stored blue score among the removed and forced ones |
| ChainTheorem.IdentifyIsLeast | nexus/src/processor.rs:603-639 | Looking removed blocks up while deleting them, recovery from the tip included, finds the least stored blue score, and deletes exactly their rows |
| ChainTheorem.AddIsCanonical | nexus/src/processor.rs:405-494 | A block above the tip extends ledger and indexes by exactly that block |
| ChainTheorem.OnlyNewsCount | nexus/src/processor.rs:405-434 | A list of mergesets in which new ones are mixed with stored ones, ones below the tip and ones listed twice has exactly the effect of the new ones among them |
| Survival.SurvivorsAre | nexus/src/processor.rs:405-434 | Which blocks survive a change, block by block: those below every forced score and every stored removed block, and the delivered ones that are not stored and lie at or above the tip that is left |
| ChainIndexes.RemovedBlocksComeBack | nexus/src/processor.rs:320-345 | Rolling back to any blue score and delivering the removed mergesets again gives back the same ledger, token ids included, and the same chain indexes |
| ChainIndexes.RedeliveryChangesNothing | nexus/src/processor.rs:405-434 | Mergesets that are stored already or lie below the blue score of some stored block change nothing at all |
| ChainIndexes.ChainIndexesAgree | nexus/src/processor.rs:412-439 | In every reachable state both chain indexes hold the same blocks, the transaction index is the inverse of the log, and every logged operation lies in a stored block |
| ChainIndexes.RollbackLeavesNothingAbove | nexus/src/processor.rs:603-675 | After a reorganisation to blue score b, forced rollbacks included, no row of the ledger tables and of the chain indexes lies at or above b, and the blocks below b are all kept; the discount log and the seller index are not covered |
| ChainIndexes.DiscountLogExactIff | nexus/src/processor.rs:1643-1662 | A rollback leaves the discount log as it is, so the log stays exact if and only if it has no row from the threshold on |
| Protocol.OperationsFollowTheRules | nexus/src/processor.rs:498-600 | In every reachable state an operation is accepted exactly when the token rules, stated without the tables, allow it, and is otherwise logged with the rule it breaks; an accepted one changes owners, supply, offers and fees as the rules say, a rejected one changes nothing but the log |
| Protocol.ChargesLatestAfter | nexus/src/processor.rs:1200-1212 | After any valid history the fee the byte-range scan finds for a mint is the one of the latest discount of its receiver, and there is none when there is no discount |
| Protocol.MintVerdict | nexus/src/processor.rs:1145-1232 | A mint is refused with exactly the rule it breaks (not started, royalty, beneficiary, sold out), and otherwise mints; it never panics |
| Protocol.MintWrites | nexus/src/processor.rs:1224-1276 | An accepted mint gives its receiver one new id above the premint and within the supply, and counts one |
| Protocol.DeployFollows | nexus/src/processor.rs:1074-1142 | A deployment is refused only for a taken tick, and otherwise hands exactly the ids 1 to premint to the deployer |
| Protocol.PremintsFollow | nexus/src/processor.rs:1118-1137 | No premint of the loop is refused; after n of them the ids 1 to n and nothing else are handed out |
| Protocol.CountIsLast | nexus/src/processor.rs:1191-1196 | The greatest sequence number is the number of mints |
| Guarantees.SupplyHolds | nexus/src/processor.rs:1191-1276 | In every reachable state the sequence numbers of a tick are 1..n with n at most the supply, the n ids are distinct, within 1..max, contain all premints and are exactly the owned tokens; n = max means every id is minted |
| Guarantees.OwnershipIndexesAgree | nexus/src/processor.rs:1022-1070 | In every reachable state, reorganisations included, ownership changes and history match one to one, the current owner is the latest history row of its token, and the address index is the exact inverse with the same scores |
| Guarantees.ListingsAreSafe | nexus/src/processor.rs:1497-1554 | In every reachable state a listing is what a surviving accepted List of that token wrote (its sender, transaction, address, redeem script and score), its seller owns the token, and the token did not change hands since |
| Guarantees.OnlyTheNamedSendEndsAListing | nexus/src/processor.rs:1571-1640 | While a listing stands, exactly the Send naming its transaction ends it; that Send is accepted and the token then belongs to its buyer, and no other operation changes the owner |
| Steps.RunIsGood | nexus/src/processor.rs:498-600 | No operation of a valid history aborts, and every reachable ledger satisfies all table invariants |
| Steps.ApplyKeeps | nexus/src/processor.rs:498-600 | An operation with a higher score and a new transaction id never aborts and keeps every invariant |
| Invariants.OwnershipIsDetermined | nexus/src/processor.rs:1022-1070 | The history fixes current owners and, as their exact inverse with equal scores, the address index |
| Invariants.NewOwnerKeepsOwnership | nexus/src/processor.rs:1242-1276 | Recording a newer owner and moving the address row keeps the four ownership tables in step |
| Preservation.NextIdKeepsSupply | nexus/src/processor.rs:1224-1240 | Below the supply the next id exists, was never minted, and minting it keeps the partition of the supply |
| Filtering.RunIsFiltered | nexus/src/processor.rs:701-799 | Dropping the rows from a threshold on gives the append-only tables of the operations below it |
| MarketReorg.KeptIsInForce | nexus/src/processor.rs:715-741 | For any interleaving of List, Send, cancel and re-List, the standing listings below the threshold together with the restored ones are those in force at the threshold |
| MarketReorg.StepIsMarketStep | nexus/src/processor.rs:1497-1554 | Only an accepted List puts a listing in and only an accepted Send naming it takes it out |
| Reorg.RemoveOpsIsRemoval | nexus/src/processor.rs:701-768 | The ascending deletion removes exactly the logged operations and restores exactly the listings whose List lies below the threshold |
| SupplyReorg.UndoReachesThreshold | nexus/src/processor.rs:938-997 | Undoing the draws since the threshold, newest first, never fails and gives the allocator the operations below the threshold had left |
| OwnerReorg.UnwindTakesOut | nexus/src/processor.rs:962-995 | Unwinding takes out exactly the rows of the changes and yields the owner each had set |
| OwnerReorg.RebuiltIsLatest | nexus/src/processor.rs:1022-1070 | Rebuilding the affected tokens makes the owners the latest of the remaining history and the address index their inverse |
| ReorgIsReplay.OwnershipIsReplayed | nexus/src/processor.rs:918-1070 | Unwinding, removing and rebuilding ends in the ownership tables of the operations below the threshold |
| Residues.RollbackKeepsResidue | nexus/src/processor.rs:864-911 | Across any rollback every listing keeps its seller-index row and every discount in force its log row |
| Residues.ApplyKeepsSellers | nexus/src/processor.rs:1541-1554 | Forward operations keep the seller index: exact stays exact |
| Residues.SellerIndexExactIff | nexus/src/processor.rs:839-911 | A rollback keeps the seller index exact if and only if no token whose sale it undoes is now listed by somebody other than the seller it goes back to |
| StaleRows.StaleRowsAreKnown | nexus/src/processor.rs:320-345 | After any run of chain changes the seller index holds a row for every listing, the discount log one for every discount in force, and beyond these exactly the stale rows: those a reorganisation displaced or took out of force and that were not written again or given back since; each table is exact if and only if there are none |
| StaleRows.RollbackLeaves | nexus/src/processor.rs:839-911 | A rollback makes stale exactly the rows of tokens listed by another seller than the one they go back to and the discounts from the threshold on, and gives the rows of the listings it puts back their listing again |
| Leftovers.GrowingChainIsExact | nexus/src/processor.rs:320-345 | As long as no block is removed the seller index and the discount log are exact and no premint is counted without its mint |
| Leftovers.ReorganisationLeavesRows | nexus/src/processor.rs:839-911 | For any five blocks in which a premint is listed, sold and listed again by the buyer, and a discount is granted, with any fees, supply, royalty, scripts and rising blue scores: both indexes are exact after them, and neither is after the reorganisation of the last three |
| Leftovers.ResaleIsReceivable | nexus/src/analyzer.rs:379-480 | For every tick and first blue score there are such five blocks whose operations all meet the fee and royalty bounds of the analyzer |
| Leftovers.PremintsStayCounted | nexus/src/processor.rs:742-748 | Any deployment whose block is reorganised away leaves an empty ledger and counters that are zero but for the mint counter, which still holds its premints |
| ChainCounters.ExtendTracks | database/src/database/stats.rs:134-168 | Saturating addition of a batch keeps the counters equal to the fold while it stays within 64 bits |
| ChainCounters.RemoveTracks | database/src/database/stats.rs:176-210 | Saturating subtraction never saturates on what was counted, and leaves the counters at the fold plus the premints rolled back |
| ChainCounters.CountersConserve | nexus/src/processor.rs:330-343 | While no counter leaves 64 bits, after any mix of additions and rollbacks the persisted counters are the fold over the accepted entries of the log; only the mint counter is too high, by exactly the premints ever rolled back |
| LogCounts.CountersAreTheLog | nexus/src/processor.rs:503-571 | In every reachable state, while no counter leaves 64 bits: deployments, transfers, listings and sends are the numbers of accepted entries of each kind in the log, mints is the number of accepted mints plus the premints of the accepted deployments plus the premints ever rolled back, and the fees are the sums over the accepted entries |
| Counters.SaturationLaws | database/src/database/stats.rs:134-210 | Saturating addition is the greatest number within the sum and 64 bits, saturating subtraction the least one that makes up the difference |
| ChainCounters.CountersAreU64 | database/src/database/stats.rs:134-210 | Whatever the notifications, every persisted counter stays within 64 bits |
| Conservation.RollbackConserves | nexus/src/processor.rs:714-767 | A rollback keeps six counters equal to the fold, and the mint counter if and only if no accepted deployment with premints was removed |
| Conservation.RollbackBalances | nexus/src/processor.rs:714-767 | The fold before a rollback is the fold after it plus what the rollback reports plus the premints it removed |
| Conservation.AdditionBalances | nexus/src/processor.rs:503-571 | Processing operations reports exactly the fold over what it logs |
| Score.ScoresAreLexicographic | nexus/src/lib.rs:45-55 | Within the limits scores are ordered as blue score, block index, transaction index |
| Score.ThresholdSeparates | nexus/src/lib.rs:40-60 | Division recovers the blue score, and a score reaches the threshold of b exactly when its blue score reaches b |
| Score.UnboundedBlockIndexOverlaps | nexus/src/lib.rs:45-55 | A block index equal to the limit reaches the threshold of the next blue score |
| TokenIds.UndoRevertsGenerate | nexus/src/processor/token_id.rs:220-494 | A draw from a collection with room does not panic, gives a fresh id in range, and undoing it restores all three tables exactly: swap from the end, both shrinks, split and first use |
| TokenIds.UndoAllRevertsGenerateAll | nexus/src/processor/token_id.rs:220-494 | Any run of draws within the supply succeeds, never repeats an id, keeps the partition, and is undone exactly in reverse order |
| TokenIds.GenerateKeepsPartition | nexus/src/processor/token_id.rs:220-327 | A draw moves one id from the free ranges, which stay non-empty, disjoint and densely indexed, to the drawn ids, and touches no other collection |
| TokenIds.RoomByCount | nexus/src/processor/token_id.rs:228-250 | Below the supply some range is left, so a used-up collection is never opened again; a finished one has drawn every id |
| Drawing.DrawSelects | nexus/src/processor/token_id.rs:229-262 | The id an entropy selects, on the tables alone: the first draw of a collection takes premint + 1 + entropy % (max - premint); later ones take the row at entropy % n of n rows, and start + entropy % size in it |
| Drawing.EveryIdCanBeDrawn | nexus/src/processor/token_id.rs:240-262 | Some entropy selects any id above the premint on the first draw, and the offsets of the selected range reach each of its ids, each exactly by its own remainder |
| Drawing.DrawOnTheList | nexus/src/processor/token_id.rs:264-325 | The rows after a draw, as a list: a used-up row is replaced by the last, an id at either end shrinks its row, one inside splits it and the right part goes to the end |
| Drawing.BlocksAreLogged | nexus/src/processor.rs:440-600 | In every reachable state each operation of each surviving block is in the log at the number (blue score * limit + block index) * capacity + transaction index, unchanged but for the id of a mint, and an accepted mint drew the id that the entropy of its block selects in the tables it was met with |
| Drawing.LogIsOfTheBlocks | nexus/src/processor.rs:440-494 | In every reachable state the log holds nothing but the operations of the surviving blocks |
| LogTables.CollectionsAreLogged | nexus/src/processor.rs:1074-1142 | In every reachable state the registry holds exactly the collections of the accepted deployments of the log, with what they announced and their score |
| TokenIdSteps.RemoveRange | nexus/src/processor/token_id.rs:14-95 | Takes out a range of size one with the last range moved into its place; panics only without that last range |
| TokenIdSteps.ShrinkRange | nexus/src/processor/token_id.rs:97-147 | Takes one id off either end of a range |
| TokenIdSteps.SplitRange | nexus/src/processor/token_id.rs:149-218 | Splits a range around an id, the right part going to the end of the list |
| TokenIdSteps.GenerateTokenId | nexus/src/processor/token_id.rs:220-327 | Draws one id, in all four cases as specified |
| TokenIdSteps.RevertRemovedRange | nexus/src/processor/token_id.rs:329-376 | Moves the range in the way back to the end and restores the removed one |
| TokenIdSteps.RestoreRangeMaybeSplit | nexus/src/processor/token_id.rs:378-409 | Restores the range and drops the extra one of a split |
| TokenIdSteps.RollbackTokenGeneration | nexus/src/processor/token_id.rs:412-494 | Undoes one draw, the first draw of a collection included |
| Operations.CheckRoyalty | nexus/src/processor.rs:1200-1222 | The royalty verdict of a mint that is not a premint |
| Operations.MintToken | nexus/src/processor.rs:1234-1276 | Chooses the id and writes the five tables of an accepted mint |
| Operations.ProcessMint | nexus/src/processor.rs:1145-1279 | Verdict, tables and drawn id of a mint; a rejected one changes nothing |
| Operations.ProcessDeployment | nexus/src/processor.rs:1074-1142 | Verdict and tables of a deployment with its premint loop |
| Operations.ProcessTransfer | nexus/src/processor.rs:1281-1360 | Verdict and tables of a transfer |
| Operations.ProcessDiscount | nexus/src/processor.rs:1425-1470 | Verdict and tables of a discount, its log included |
| Operations.ProcessList | nexus/src/processor.rs:1472-1557 | Verdict and tables of a List, the seller index included |
| Operations.ProcessSend | nexus/src/processor.rs:1559-1641 | Verdict and tables of a sale or a cancellation, the seller index included |
| Operations.Dispatch | nexus/src/processor.rs:512-571 | Runs one operation; a mint is recorded with its id |
| Operations.CountAccepted | nexus/src/processor.rs:512-571 | Adds an accepted operation to the 64-bit counters of the batch |
| Operations.ProcessNftOperations | nexus/src/processor.rs:498-600 | Processes operations in order, logs every one, and reports the counters of the accepted ones, summed in wrapping 64-bit arithmetic |
| Removal.RestoreListingForReorgedSend | nexus/src/processor.rs:804-860 | Restores all three listing tables when the named List is logged, accepted and a List |
| Removal.RemoveOperation | nexus/src/processor.rs:715-766 | Removes one logged operation, restores the listing of a sale and counts it off |
| Removal.CountRemoved | nexus/src/processor.rs:742-765 | Counts a removed operation off |
| Removal.RemoveAffectedOperations | nexus/src/processor.rs:701-768 | Removes the logged operations from the threshold on, in ascending order, and counts them off in wrapping 64-bit arithmetic |
| Removal.RemoveAffectedDeployments | nexus/src/processor.rs:771-799 | Removes the deployments from the threshold on and reports their premints, in whatever order the scan gives them |
| Removal.RemoveDiscountsFrom | nexus/src/processor.rs:1643-1662 | Takes the discounts from the threshold on out of force |
| Removal.RemoveAffectedListings | nexus/src/processor.rs:864-911 | Removes the listings from the threshold on from all three tables |
| Removal.RemoveChange | nexus/src/processor.rs:962-974 | Removes the rows of one change of owner and says which owner it had set and whether it was a mint |
| Removal.RevertDraw | nexus/src/processor.rs:975-992 | Undoes the draw of an id above the premint; panics without a deployment |
| Removal.UnwindChange | nexus/src/processor.rs:962-995 | Unwinds one change of owner |
| Removal.GetAffectedTokenOperations | nexus/src/processor.rs:938-997 | Unwinds the changes from the threshold on, newest first, with the owners they had set |
| Removal.RemoveOwnershipRecords | nexus/src/processor.rs:1000-1016 | Removes the current owners of the affected tokens |
| Removal.RebuildToken | nexus/src/processor.rs:1027-1067 | Rebuilds owner and address row of one token from the remaining history |
| Removal.RebuildOwnershipState | nexus/src/processor.rs:1022-1070 | Rebuilds the affected tokens in turn |
| Removal.ReconstructTokenOwnership | nexus/src/processor.rs:918-935 | The three steps together |
| Removal.LookupRemovedBlockScore | nexus/src/processor.rs:677-698 | Finds the blue score by the reverse index or by the tip |
| Removal.RemoveChainStateFromBlueScore | nexus/src/processor.rs:641-675 | Removes both index rows of every block from the blue score on |
| Removal.IdentifyReorgBlocksAndDelete | nexus/src/processor.rs:603-639 | Finds the least blue score with the running minimum that starts at the greatest u64, and removes the chain state from it on |
| Processor.RemoveFrom | nexus/src/processor.rs:369-384 | Steps 3 to 6 of a removal together are the specified rollback |
| Processor.ProcessRemovalOn | nexus/src/processor.rs:354-387 | The whole removal on the store |
| Processor.ScoredOperations | nexus/src/processor.rs:440-491 | Scores the operations of a mergeset and leaves out those already logged |
| Processor.InsertBlock | nexus/src/processor.rs:416-439 | Stores a block in both indexes unless it is stored |
| Processor.AddOneMergeset | nexus/src/processor.rs:405-494 | Adds one mergeset, or skips it |
| Processor.ProcessAdditionsOn | nexus/src/processor.rs:391-496 | Adds the mergesets in turn against the tip read before the first |
| Processor.ProcessChainChangesOn | nexus/src/processor.rs:320-345 | Removal, additions and counters of one change |
| Processor.KeysOfQueue | nexus/src/processor.rs:1383-1407 | The test on the product of the keys, which wraps around in 64 bits, finds exactly the empty queue, and otherwise the keys are 1 to the number of notifications |
| Processor.Processor.constructor | nexus/src/processor.rs:77-103 | Starts with empty tables and an empty queue |
| Processor.Processor.ProcessChainChanges | nexus/src/processor.rs:305-318 | Applies a change in one transaction, or leaves the store as it was; for a valid run it always applies and the store is that of the surviving chain |
| Processor.Processor.ProcessQueue | nexus/src/processor.rs:1363-1378 | Puts a notification behind those that wait, with the next key |
| Processor.Processor.ProcessQueueApplication | nexus/src/processor.rs:1381-1423 | The unwrap never fails; draining the queue gives the store that applying the waiting notifications in arrival order gives, or leaves store and queue as they were |
| Keys.NumberOrder | database/src/database/partition.rs:288-299 | Big-endian bytes are ordered as the numbers |
| Keys.NumberComesBack | database/src/database/partition.rs:288-299 | Reading big-endian bytes gives the number |
| Keys.BytesComeBack | database/src/database/partition.rs:302-313 | Fixed-width byte strings and numbers below the power of 256 stand for each other |
| Keys.PackOrder | database/src/database/partition.rs:410-438 | Keys of fixed-width fields are ordered by their first differing field |
| Keys.FieldsComeBack | database/src/database/partition.rs:427-438 | Reading a key gives its fields |
| Keys.StartsWith | database/src/database/partition.rs:475-509 | A key starts with packed fields exactly when its own first fields are those |
| RowKeys.CopyInto | database/src/database/partition.rs:479-491 | Copies a field into its place of a key and leaves the rest |
| RowKeys.MintOwnedKey | database/src/database/partition.rs:479-491 | Fills the mint key |
| RowKeys.ChangeOwnedKey | database/src/database/partition.rs:414-425 | Fills the ownership-change key |
| RowKeys.HistoryOwnedKey | database/src/database/partition.rs:587-595 | Fills the ownership-history key |
| RowKeys.MintLayout | database/src/database/partition.rs:475-491 | Ten bytes of tick, the sequence number counted from the greatest u64 down, token id and score, eight big-endian bytes each |
| RowKeys.ChangeLayout | database/src/database/partition.rs:410-425 | The fields of an ownership change at their places |
| RowKeys.HistoryLayout | database/src/database/partition.rs:587-595 | Tick, token id and the score counted from the greatest u64 down |
| RowKeys.BlockLayout | database/src/database/partition.rs:315-323 | Eight bytes of blue score, then the 32 of the hash |
| RowKeys.MintComesBack | database/src/database/partition.rs:493-509 | Decoding a mint key gives it back |
| RowKeys.HistoryComesBack | database/src/database/partition.rs:597-616 | Decoding an ownership-history key gives it back |
| RowKeys.ChangeOrder | database/src/database/partition.rs:410-425 | The byte order of ownership changes is the order in which a rollback unwinds them |
| Scans.ScansAreRight | database/src/database/partition.rs:512-637 | In every reachable state: the first mint key with a tick as prefix carries its last sequence number and no key means no mint; the first history key with a token as prefix carries its current owner and score and no key means no owner; the scan of ownership changes meets exactly those from the threshold on, in the order a rollback unwinds them |
| Scans.RunFits | database/src/database/partition.rs:410-616 | After any valid history every score, token id and sequence number in the mint, ownership-change and ownership-history keys fits in eight bytes |
| RowKeys.ChangeComesBack | database/src/database/partition.rs:427-438 | Decoding an ownership-change key gives its fields back |
| RowKeys.ChangesFromThreshold | nexus/src/processor.rs:945-954 | The range that starts at the threshold, the least tick and zeros holds exactly the changes with a score from the threshold on |
| RowKeys.DeploymentsFromThreshold | nexus/src/processor.rs:776-786 | The range that starts at the threshold and the least tick holds exactly the deployments with a score from the threshold on |
| RowKeys.BlockOrder | database/src/database/partition.rs:315-356 | The byte order of the chain index is by blue score and hash, so its last key is the tip |
| RowKeys.BlockComesBack | database/src/database/partition.rs:325-332 | Decoding a key of the chain index gives blue score and hash back |
| FeeKeys.VipComesBack | database/src/database/partition.rs:999-1044 | Decoding a discount key, whose script has no fixed width, from its end gives it back |
| FeeKeys.VipParts | database/src/database/partition.rs:999-1013 | Two bytes of version, the script, the tick, the score counted from the greatest u64 down, the fee |
| FeeKeys.RangeIsPrefix | database/src/database/partition.rs:1047-1072 | A key in the scanned range starts with the script and tick, and every own key is in it |
| FeeScan.FeeScanIsRight | database/src/database/partition.rs:1047-1072 | After any valid history the first key of the scanned byte range is the latest discount of the address and tick, and the range is empty when there is none |
| FeeScan.ScanIsRightIff | database/src/database/partition.rs:1047-1072 | For arbitrary scripts: the scan is right on every part of a table if and only if every key in the scanned range belongs to the script and tick asked for |
| FeeScan.AddressesAreApart | database/src/database/partition.rs:999-1044 | The key bytes of two different address scripts are never one a prefix of the other, although scripts have no fixed width |
| FeeScan.DiscountsOfRun | nexus/src/processor.rs:1425-1470 | After any valid history every discount in force belongs to an address and its fee is below the greatest u64, which the scan excludes |
| ScriptKeys.DiscountComesBack | database/src/database/partition.rs:939-969 | Decoding a key of the discount log from its front gives it back |
| ScriptKeys.DiscountsFromScore | database/src/database/partition.rs:973-988 | The scan of the discount log that starts at the bytes of a score holds exactly the discounts from that score on |
| ScriptKeys.HoldingComesBack | database/src/database/partition.rs:793-830 | Decoding a key of an address index from its end gives it back |
| ScriptKeys.HoldingParts | database/src/database/partition.rs:793-808 | Two bytes of version, the script, the tick, the token id |
| ScriptKeys.DiscountParts | database/src/database/partition.rs:939-952 | Score, tick, two bytes of version, the script |
| Scans.ScriptKeysAreApart | database/src/database/partition.rs:787-989 | In every reachable state no two rows of the address index, the seller index or the discount log share a key, although their scripts have no fixed width |
| Mergesets.AddBlock | nexus/src/syncer.rs:589-602 | Adds a block once; fails only when the node does not have it |
| Mergesets.CollectBlocks | nexus/src/syncer.rs:586-629 | The first pass succeeds exactly when the node has every block and every transaction names one, and collects each block once |
| Mergesets.PlaceTransactions | nexus/src/syncer.rs:639-660 | The second pass never reports a block as not found, and puts every transaction into its block |
| Mergesets.Reconstruct | nexus/src/syncer.rs:565-669 | Succeeds exactly when the node answers everything, and then gives the selected parent first, the other blocks by blue work and hash, each with its transactions in order |
| Mergesets.ReconstructChainBlock | nexus/src/syncer.rs:539-669 | Fails exactly when the header lacks its hash, blue score or DAA score, the node lacks the accepting block, its mergeset lists or a merged block, or a transaction names no block; otherwise hash and scores are those of the header and the blocks are the mergeset |
| Assembly.WhatIsMerged | nexus/src/syncer.rs:539-669 | On the answers of the node alone: when a reconstruction succeeds, and that it then has exactly the selected parent, the listed blocks and the blocks of accepted transactions, each once, sorted by blue work and hash after the parent, with their timestamps and their own transactions in order |
| MergesetOrder.MergesetIsUnique | nexus/src/syncer.rs:630-640 | Parent, members and transactions determine the result |
| MergesetOrder.ListingOrderDoesNotMatter | nexus/src/syncer.rs:586-640 | The block order does not depend on the order or colour in which the node lists the blocks |
| MergesetOrder.BlocksAreOrdered | nexus/src/syncer.rs:565-640 | Distinct hashes, the selected parent first, the rest sorted by the node's blue work and then by hash, and every block has the node's timestamp; the origin counts as a block of no work and time zero |
| MergesetOrder.EveryTransactionLandsOnce | nexus/src/syncer.rs:646-660 | Every accepted transaction lands in exactly one block, and the transactions of a block are those that name it, in the order of acceptance |
| MergesetOrder.OwnInOrder | nexus/src/syncer.rs:646-660 | The transactions placed into a block are those that name it, in the order of acceptance |
| MergesetOrder.PositionsRise | nexus/src/syncer.rs:705-760 | Operations get strictly rising positions, one for each recognised transaction |
| MergesetOrder.MergesetIsOrdered | nexus/src/syncer.rs:690-772 | A reconstructed mergeset within the limits is an ordered block as the chain theorems ask |
| Assembly.DetectInBlock | nexus/src/syncer.rs:709-757 | The operations of one block, each with its position and the time of its block |
| Assembly.ProcessReconstructed | nexus/src/syncer.rs:690-772 | The mergeset of an acceptance: hash, blue score, entropy of all block hashes, and exactly the operations recognised in each transaction with the time of its block, at its place, in rising order |
| Assembly.AnyListingGivesTheSame | nexus/src/syncer.rs:539-772 | However the node lists a mergeset, the reconstruction fails or succeeds alike and gives the same mergeset, entropy included, so the store after it with its token ids is the same |
| Assembly.EntropyIsOfTheBlocks | nexus/src/syncer.rs:697-704 | The entropy of a mergeset is that of the selected parent and the other merged blocks, each taken once, in whatever order |
| Entropy.WordHoldsBytes | nexus/src/syncer.rs:1131-1136 | Each of the eight bytes of a chunk lies at its little-endian place of the word |
| Entropy.WordsInPlace | nexus/src/syncer.rs:1131-1136 | Word j of hash i is the little-endian number of its bytes 8j to 8j + 7 |
| Entropy.EntropyIsParity | nexus/src/syncer.rs:1131-1136 | Bit k of the folded words is set exactly when an odd number of the words have it set |
| Entropy.TwiceIsNothing | nexus/src/syncer.rs:1131-1136 | Adding the same hash twice leaves the entropy as it was |
| Entropy.EntropyIgnoresOrder | nexus/src/syncer.rs:1130-1141 | The entropy depends on which blocks are merged, not on their order |
| Entropy.MergesetEntropyBuilder.AddBlockHash | nexus/src/syncer.rs:1131-1136 | Folds the four little-endian words of a 32-byte hash into the entropy |
| Entropy.MergesetEntropyBuilder.Finalize | nexus/src/syncer.rs:1138-1140 | The exclusive or of all words of all hashes added: bit k is set exactly when an odd number of the words have it set |
| Entropy.EntropyOf | nexus/src/syncer.rs:697-704 | The entropy of a mergeset is that of the hashes of all its blocks: bit k is set exactly when an odd number of the words have it set |
| FreeRanges.AvailableTokenIdRanges | nexus/src/nft_view.rs:740-789 | The report, branch by branch |
| FreeRanges.FreeRangesAreExact | nexus/src/nft_view.rs:740-789 | In every reachable state the report covers each un-minted id exactly once and no other id, and says fully minted exactly when every id is |
| Pages.CollectSplitLast | nexus/src/utils.rs:155-172 | The first error ends the scan; otherwise the last value is kept apart from the others |
| Pages.ToPaginated | nexus/src/accessor.rs:859-881 | A full page points at the row after it, a short one ends |
| Pages.ResolveIterArgs | nexus/src/accessor.rs:883-894 | Direction and offset as given, or forward and the start of the direction; the limit as given, but at most 50 |
| Pages.PageFrom | nexus/src/nft_view.rs:72-90 | A page holds the next rows, and its offset leads exactly to the rest |
| Pages.FromHolds | nexus/src/nft_view.rs:72-90 | A scan from any offset, a key of the table or not, meets exactly the rows from that key on, upwards or downwards in turn |
| Pages.WalkVisitsEveryRowOnce | nexus/src/nft_view.rs:277-408 | With a limit of at least one, following the offsets visits every row exactly once, with rising keys forwards and falling keys backwards, and ends |
| Lists.HistoryRunsBackwards | nexus/src/nft_view.rs:386-404 | The byte order of a token history is the falling order of scores, which is why its forward scan is turned round |
| TokenHistory.HistoryViewNeverPanics | nexus/src/nft_view.rs:360-378 | In every reachable state each row of the ownership history finds its operation in the log, so the view never panics, and the transaction it shows is the accepted one that handed the token to the owner it shows |
| TokenHistory.RunIsTold | nexus/src/processor.rs:1242-1276 | After any valid history the ownership history holds one row for each token an accepted operation of the log handed over (premints, mints, transfers and sales), with the receiver, and no other row |
| Lists.ReachableListsAreComplete | nexus/src/nft_view.rs:277-408 | In every reachable state paging through the tokens of a collection, the log or the history of a token meets each row exactly once in either direction, each history row with its transaction |
| Pages.ZeroLimitNeverAdvances | nexus/src/accessor.rs:883-894 | With a limit of zero the page points at itself as long as there is a row |
| Archive.Fill | snapshot/src/chunk.rs:13-38 | The next records up to the first that passes the chunk size, and nothing only when nothing is left |
| Archive.SizeIsBytes | snapshot/src/chunk.rs:13-38 | The size that ends a chunk is the number of bytes of its keys and values |
| Archive.DatabaseIngest.Next | snapshot/src/snapshot.rs:391-420 | Chunks lose, repeat and misroute no record |
| ArchiveWriting.ArchiveSnapshots | snapshot/src/snapshot.rs:156-272 | The file holds exactly the records of the partitions not skipped, in order, for any chunk size and worker count; the header counts the chunks and hashes their data; no partition means no file |
| ArchiveWriting.KeptAreNotSkipped | snapshot/src/snapshot.rs:174-185 | The partitions kept are those whose name is not skipped, in order |
| ArchiveWriting.DataJoins | snapshot/src/snapshot.rs:204-272 | The hash of the header is taken over the data of the chunks, one after the other |
| Restoring.Restore | snapshot/src/snapshot.rs:275-353 | Succeeds if and only if the magic is right, the announced chunks are there, each unpacks and names a known partition, and their data has the hash of the header; it then inserts the records of the chunks |
| Restoring.RestoredIff | snapshot/src/snapshot.rs:298-350 | A restore succeeds if and only if the magic is right, the announced chunks are there, each unpacks and names a known partition, and their data has the hash of the header |
| Restoring.RestoredTables | snapshot/src/snapshot.rs:300-340 | A restored archive has the partitions of its table, each with the records of the chunks that name it, in their order |
| Restoring.LoadIsPuts | snapshot/src/snapshot.rs:320-340 | Loading chunks inserts exactly the records in them |
| Restoring.ArchiveComesBack | snapshot/src/snapshot.rs:204-353 | Restoring what was archived rebuilds every partition that was not skipped exactly; the hash check passes |
| Restoring.ContentsAreRecords | snapshot/src/snapshot.rs:335-338 | A restored partition has the key of every record and no other, each with the value of the last record of that key |

## Left out

- The hand-off between the realtime and the historical thread (`nexus/src/processor.rs:172-301`): when one may run is decided by messages of other threads; the queue between them is modelled.
- The sync loop with its retries, sink refresh and progress classification (`nexus/src/syncer.rs:85-357`), and the flat fallback for acceptance data (`nexus/src/syncer.rs:478-487`).
- Operation parsing and validation (`nexus/src/analyzer.rs`): its results are inputs.
- The rejection log, metrics, the test channels, the network, HTTP, wasm and command-line layers.
- The views of address holdings and of active listings; the latter pages by token id (`nexus/src/nft_view.rs:836-846`) while its accessor returns an operation score as the next offset (`nexus/src/accessor.rs:744`), so the page walk does not hold there.
- The pay-to-script-hash computation is a library function; its result is a field of a List.
- The check that acceptance records line up with the added blocks (`nexus/src/syncer.rs:507-537`), a comparison of two lists.
- Errors of the key-value store itself; any of them drops the transaction, as `Failed` does.
- Removal.RemoveAffectedDeployments: the scan order is left open, as in the loops over discounts, listings and chain blocks; the result is proved for any order. The loops whose order matters scan in key order.
- Scans.ScansAreRight: the order of a prefix scan is stated by the first hit; the store's iterator itself is a library.
- Mergesets.ReconstructChainBlock: the block cache is one lookup table with the node's answers, and the library sort is an insertion sort with the same order.
- ArchiveWriting.ArchiveSnapshots: encoding, compression and hashing are any inverse pair and any function; the workers are a queue that delivers in the order of submission, as the ordered futures do; the byte layout of the file is not modelled.
- Processor.Processor.ProcessQueue: asks for fewer than 2^64 - 1 waiting notifications; the next key would not exist.
- Restoring.ArchiveComesBack: partition names are distinct, and partition ids are 16-bit, so there are at most 65536 partitions.
- Ledger numbers are unbounded; the 64-bit bounds that matter are stated where they do: scores, counters, keys and the running minimum of a reorganisation.
