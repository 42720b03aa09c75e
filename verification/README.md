# Verified model of the xchain-sync replica

xchain-sync keeps a replica that must end in the same state as its source through reorgs, crashes and
concurrent verification. This project models the parts of it where that is hard and proves them in Dafny 4.11:

- **Merkle commitments** (`Hashing`, `SparseMerkle`, `CompressedProof`, `FixedMerkle`, `PersistentSmt`): the sparse
  Merkle tree with its proofs, the bitmap-compressed proofs, the padded tree of the state root, and the copy-on-write
  tree over a node store. Each is compared with a dense reference tree over all keys.
- **Incremental roots over append-only journals** (`JournalRoots`, `ContractState`, `EscrowLeaves`): a root threaded
  block by block is the full build, over every run of blocks and reorgs.
- **Replica rollback** (`StakeJournal`, `StakeRows`, `InPlaceFlips`, `ReplicaRollback`, `ReplicaWrites`,
  `CooldownMaturity`, `EscrowGate`, `PricePurge`): the restore and reset statements undo exactly what orphaned blocks wrote.
- **Verified tip, rollback guard and durable halt** (`VerifiedTip`, `VerifiedTipShape`, `VerifiedTipExact`,
  `VerifiedTipProgress`, `VerifiedTipTasks`, `VerifiedTipRuns`, `VerifiedTipOrdinary`, `RollbackGuard.dfy` with module
  `RollbackDepth`, `HaltPersistence`, `HaltRetry`, `HaltTasks`): state machines whose steps are the segments between
  two awaits, with failed writes and crashes.
- **Apply-time repair and checkpoints** (`LookupRepair`, `Checkpoint`).

`dafny verify dfyconfig.toml` checks the whole project.

## How the system is represented

- Hashes are free constructors with a distinct empty leaf, so they are injective and domain separated; the tree depth
  is a parameter. SMT keys are bit strings; journal rows carry the key their fields hash to.
- A database table is a map or a sequence; a SQL statement is one assignment or one loop over it. Rows that the source
  keys by `action_index` are deleted by the first orphaned action index, found as the source finds it.
- The forward writers of rows that a rollback restores live in another repository. They are modelled from the comments
  beside each reset, and what those comments promise of them is the `Allowed` or `CanFlip` predicate of the module.
- Amounts are whole units of 10^-18 (a natural number or an integer), stake weights are `real`.
- A write that does not rethrow may report success without landing, because the query layer logs a failure and returns
  an empty result (src/db/index.js:1126-1157, src/db/sync_meta.js:61-76). A rethrowing write reports success only if it
  landed.
- Where a documented promise is false of the code, the model keeps the code, gives a concrete failing run or input, and
  proves exactly when the promise holds.
- Blocks land only under a pass: a catch-up or live block is let through when the walk it waits for, shared with other
  callers, answers ok, or when the marker equals the tip (src/client/sync.js:2230-2238, 4482-4524). A pass may be used
  late, after the rows under it changed.

## Main results

1. `ReplicaRollback.RollbackIsReplay` and `ReplicaMatchesFreshSync`: rolling back to a height leaves every modelled
   table as the blocks below it alone would, and after any interleaving of blocks and rollbacks the replica equals a
   fresh one fed the standing blocks. `Replica.RollbackIndexer` executes the statements and meets this.
2. `VerifiedTipExact.AdmissibleIffMarkersHold` and `MarkersNeverLie`: an interleaving of walks, live blocks, removals,
   bootstraps, lost writes and crashes is admissible if and only if neither marker lies, or can be made to lie by the
   next rows that land, at any of its points; `GuardIsExact` says what to check before each step.
   `OrdinaryRunsAreAdmissible` names the few causes to avoid, and `VerifiedTipRuns` has, for each kind, a run of the code
   that ends in the lie. Of every run, admissible or not: `HaltRestsOnStoredRows` and its converse
   `BadVerdictIsAnswered`, and `OkCoversTip`. From rest every task can run to its end (`VerifiedTipTasks`).
3. `ContractState.ThreadedRootIsFullBuild`, `EscrowLeaves.ShadowRootIsFullBuild`: threaded roots are full builds, and
   `StandingBlocksHaveRoots`, `StandingBlocksHaveShadowRoots`: exactly the standing blocks have one, in their own column.
4. `SparseMerkle.AcceptedExactly`, `FixedMerkle.FixedProofExact`: proofs are complete, sound and unique.
5. `HaltPersistence.HaltIsDurable` and `AdmissibleIffHaltsHold`: a landed halt is held by its row or its copy until a
   clear lands, and nothing is applied meanwhile, if and only if every clear ends as its condition says.
   `StartFailsClosed` holds of every run, admissible or not. `HaltRetry.RetriedIffGuarded`: an owed row is being
   written or its retry is armed at every point if and only if every step meets a guard; the code can miss it in two
   ways, `StaleRetryTakesTimer` and `FailedClearForgets`.
6. `RollbackDepth.RefinesRunningMaximum` and `AgreesExactly`, `CooldownMaturity.BookMatchesFreshSync` and
   `BondConserved`, `EscrowGate.GatesAlwaysDerived`,
   `LookupRepair.Lookup.Repair`, `Checkpoint.AcceptedCheckpointsShareSigner` and `StakeAcceptedIntersect`.

## Model

| member | source | states |
|---|---|---|
| `SparseMerkle.TreeDeterminesLeaves` | src/merkle.js:90-96 | two trees agree at a node exactly when their maps have the same leaves below it |
| `SparseMerkle.RootDeterminesMap` | src/merkle.js:85-120 | with no empty leaf stored, equal roots mean equal maps on full keys, and conversely |
| `SparseMerkle.EmptyLeafIsInvisible` | src/merkle.js:101-103 | storing the empty leaf under an absent key leaves the root unchanged: why callers must delete instead |
| `SparseMerkle.EmptyTree` | src/merkle/primitives.js:71-77 | an all-empty subtree is the frozen empty constant of its height at every depth |
| `SparseMerkle.SmtNodeIsTree` | src/merkle.js:90-96 | the recursive partitioning over any entry list is the dense tree over the map it lists |
| `SparseMerkle.HistoriesAgree` | src/merkle.js:98-121 | two histories of sets and deletes have the same root exactly when they end in maps with the same leaves |
| `SparseMerkle.ClimbMeetsTree` | src/merkle.js:145-154 | a climb meets the tree exactly when it starts from the held leaf and uses the tree's own siblings |
| `SparseMerkle.AcceptedExactly` | src/merkle.js:145-154 | a proof is accepted if and only if it states the held leaf and carries the one sibling vector of the tree |
| `SparseMerkle.AcceptedMeansHeld` | src/merkle.js:145-154 | apart from the empty leaf, acceptance means membership for Some and absence for None |
| `SparseMerkle.EmptyLeafClaimIsAccepted` | src/merkle.js:145-154 | the excluded case: a membership claim of the empty leaf is accepted for an absent key |
| `SparseMerkle.VerifySmtProof` | src/merkle.js:145-154 | the loop accepts exactly what the climb accepts; a vector of the wrong length is refused |
| `SparseMerkle.ProveSiblings` | src/merkle.js:125-138 | the proof loop collects the tree's own siblings |
| `SparseMerkle.SparseMerkleTree.Set` | src/merkle.js:104-109 | sets or, with null, deletes one key of the map |
| `SparseMerkle.SparseMerkleTree.RootHash` | src/merkle.js:119-120 | the root is the dense reference root of the current map |
| `SparseMerkle.SparseMerkleTree.Prove` | src/merkle.js:125-142 | the proof states what the map holds and is accepted against the root |
| `CompressedProof.CompressSmtProof` | src/merkle.js:161-172 | marks and keeps exactly the siblings that differ from the empty constant of their depth |
| `CompressedProof.DecompressSmtProof` | src/merkle.js:173-184 | fails exactly when the number of set bits differs from the number of siblings; otherwise expands bit by bit |
| `CompressedProof.DecompressCompress` | src/merkle.js:161-184 | decompressing a compression gives back the full vector, and nothing else |
| `CompressedProof.CompressDecompress` | src/merkle.js:161-184 | compressing an expansion gives the form back if and only if the form marks no empty sibling |
| `CompressedProof.ClearBitsAreEmptySides` | src/merkle.js:161-172 | compressing a tree's own proof, bit d is set exactly when the map holds a leaf on the other side at depth d |
| `CompressedProof.VerifyCompressedSmtProof` | src/merkle.js:185-187 | compressed and plain verification agree on every vector |
| `FixedMerkle.NextPow2` | src/merkle.js:193-193 | the least power of two at or above n |
| `FixedMerkle.FixedMerkleRoot` | src/merkle.js:195-206 | the layered fold is the perfect tree over the padded vector |
| `FixedMerkle.FoldMeetsPerfect` | src/merkle.js:226-234 | a fold of full height meets the root exactly with the leaf and path of its index |
| `FixedMerkle.FoldIgnoresHighBits` | src/merkle.js:226-234 | a verifier reads the index only modulo the tree width |
| `FixedMerkle.ShortProofAcceptsNode` | src/merkle.js:226-234 | at every height, a proof some levels short is accepted exactly for the inner node of that level and index, so the height must be fixed |
| `FixedMerkle.FixedMerkleProof` | src/merkle.js:209-225 | errors exactly out of range; otherwise the path of the index |
| `FixedMerkle.VerifyFixedMerkleProof` | src/merkle.js:226-234 | the loop accepts exactly when the fold is the root |
| `FixedMerkle.FixedProofExact` | src/merkle.js:195-234 | at full height a proof is accepted if and only if it has the padded leaf and its path |
| `FixedMerkle.PerfectInjective` | src/merkle.js:195-206 | equal roots of equal height force equal leaf vectors |
| `FixedMerkle.StateRoot` | src/merkle.js:241-246 | commits the five named slots, an absent one as the empty-tree root |
| `FixedMerkle.StateRootIsTerm` | src/merkle.js:236-246 | the root is the term over the five named sub-roots in their order, an absent one that of a 256-level tree over no key, padded with three empty leaves |
| `FixedMerkle.StateRootDeterminesSlots` | src/merkle.js:241-246 | equal state roots if and only if every named slot has the same sub-root |
| `FixedMerkle.StateRootProof` | src/merkle.js:248-253 | errors exactly on an unknown name; otherwise a proof the state root accepts for that slot |
| `PersistentSmt.HoldsForever` | src/contract_state_subtree.js:96-102 | a store that only grew still holds every root it held |
| `PersistentSmt.WalkReadsTree` | src/state_commitment/index.js:221-236 | descending a represented root reads the tree's own siblings and the held leaf |
| `PersistentSmt.UpdateRefines` | src/state_commitment/index.js:252-276 | an update turns a store representing a map into one representing the map with one key put or deleted, and only grows it |
| `PersistentSmt.ForgottenStoreDropsKeys` | src/contract_state_subtree.js:96-102 | over any store without the prior root's row the update returns the root of the updated key alone, which is right if and only if the prior tree held no other leaf |
| `PersistentSmt.PersistentSmt.Descend` | src/state_commitment/index.js:221-236 | the loop is the walk, a missing node reading as an empty subtree |
| `PersistentSmt.PersistentSmt.Update` | src/state_commitment/index.js:252-276 | the climb returns the updated root and stores the path's non-empty nodes |
| `PersistentSmt.PersistentSmt.Prove` | src/state_commitment/index.js:289-298 | as of any represented root, the reference tree's proof, accepted by the verifier |
| `JournalRoots.LatestIsMaxId` | src/contract_state_subtree.js:171-177 | the chosen row is one of the key's rows with the highest id, tombstones included |
| `JournalRoots.LiveIsReplay` | src/contract_state_subtree.js:188-205 | with ids growing in append order the live map is the replay of the journal's writes |
| `JournalRoots.ThreadRefines` | src/contract_state_subtree.js:237-242 | threading a root through updates is applying them to the map it stands for |
| `JournalRoots.TouchedUpdatesReachLive` | src/contract_state_subtree.js:159-242 | updating only a block's touched keys takes the prior live map to the live map after the block |
| `JournalRoots.FullBuildReachesLive` | src/contract_state_subtree.js:188-205 | the full build from the empty map reaches the live map, in any key order |
| `ContractState.LatestStateValue` | src/contract_state_subtree.js:151-177 | the value read maps to the leaf the key commits now |
| `ContractState.BuildFullContractStateRoot` | src/contract_state_subtree.js:188-205 | one update per key with a live leaf, from the empty root |
| `ContractState.ResolveContractStateRoot` | src/contract_state_subtree.js:220-243 | threads from the column's prior root, or builds in full when there is none |
| `ContractState.RunKeepsInv` | src/contract_state_subtree.js:220-243 | over every run of blocks and reorgs each stored root of either column stands for the live state of its own height |
| `ContractState.ThreadedRootIsFullBuild` | src/contract_state_subtree.js:188-243 | at every surviving height of every run the threaded root is the full build over the surviving rows |
| `ContractState.ColumnsStayApart` | src/state_commitment/index.js:771-806 | an armed block adds its root to the committed column only, a shadow block to the shadow column only, an inert one to neither; stored roots stay |
| `ContractState.ReorgKeepsBelow` | src/contract_state_subtree.js:220-243 | of either column and of the rows a reorg leaves exactly what blocks below its height wrote |
| `ContractState.StandingBlocksHaveRoots` | src/contract_state_subtree.js:220-243 | after any run the rows are those of the standing blocks, and a block has a committed root exactly if it stands and was armed, a shadow root exactly if it stands and was shadow-computed |
| `ContractState.StateKeyReads` | src/contract_state_subtree.js:151-177 | a key has a leaf exactly when its newest row is no deletion, the empty text included, and the leaf is of that text and no other |
| `ContractState.ThreadedRootIsReplay` | src/contract_state_subtree.js:87-95 | with growing ids it commits the state left by replaying the surviving writes |
| `ContractState.FilteringFirstResurrects` | src/contract_state_subtree.js:179-183 | dropping tombstones before taking the newest row would resurrect a deleted key |
| `EscrowLeaves.CheckedLeaf` | src/escrow_leaf_subtree.js:95-136 | errors exactly when the newest total is negative; no leaf exactly for no row, NULL, blank and zero; otherwise a leaf whose digits read back as the total |
| `EscrowLeaves.ApplyEscrowLeaves` | src/escrow_leaf_subtree.js:161-168 | one update per touched key, or an error exactly when a touched total is negative |
| `EscrowLeaves.LiveEscrowLeaves` | src/escrow_leaf_subtree.js:138-155 | the live locked leaves, released keys dropped after the newest row was chosen |
| `EscrowLeaves.ResolveShadowBalancesRoot` | src/escrow_leaf_subtree.js:192-203 | threads spendable updates, then locked leaves, from the prior shadow root; otherwise rebuilds both |
| `EscrowLeaves.BothReads` | src/escrow_leaf_subtree.js:95-155 | in the combined map each key is decided by its own domain |
| `EscrowLeaves.DigitsReadBack` | src/escrow_leaf_subtree.js:95-100 | the text a positive total commits reads back as it, so no two totals share a leaf |
| `EscrowLeaves.LockedKeyReads` | src/escrow_leaf_subtree.js:95-155 | a locked key is absent from the combined map exactly when released, and otherwise its total can be read from its leaf |
| `EscrowLeaves.ThreadedReachesBoth` | src/escrow_leaf_subtree.js:192-203 | the block's spendable and locked updates take the prior combined map to the combined map after the block |
| `EscrowLeaves.FullReachesBoth` | src/state_commitment/index.js:540-573 | the full build with locked leaves forced on reaches the combined map, in any key order |
| `EscrowLeaves.ShadowRootIsFullBuild` | src/escrow_leaf_subtree.js:192-203 | over every run the stored shadow root commits spendable plus live locked leaves of its height, and is the root a full build threads for that height |
| `EscrowLeaves.ShadowRootReads` | src/escrow_leaf_subtree.js:95-155 | each key of that root is decided by its own domain: a locked key has no leaf exactly when it has no row or its newest total is NULL, blank or zero, and otherwise its leaf gives that total back |
| `EscrowLeaves.StandingBlocksHaveShadowRoots` | src/escrow_leaf_subtree.js:192-203 | after any run the chain holds the standing blocks' rows and balances, and a shadow root for exactly the standing blocks it was computed for |
| `StakeJournal.DecreasingIsChained` | src/client/rollback.js:524-532 | in a strictly decreasing slash chain the earlier debit wins whatever execution index and position it carries |
| `StakeJournal.SelectedIsLeast` | src/client/rollback.js:533-561 | the NOT EXISTS picks the highest pre-image and, on ties, the lowest block, execution index and position; for the other journals the lowest block and action |
| `StakeJournal.SelectedExactlyFirst` | src/client/rollback.js:533-561 | the restore selects exactly one orphaned journal row of a row that has any: its first rewrite at or above the height |
| `StakeJournal.RestoredIsBeforeOrphans` | src/client/rollback.js:512-629 | the restored value is the one held just before that first rewrite |
| `StakeJournal.OrphanAbsorbed` | src/client/rollback.js:512-629 | one more orphaned rewrite changes neither the restored value nor the surviving journal |
| `StakeJournal.PositionOrderMisses` | src/client/rollback.js:524-532 | ordering by positions alone restores the wrong amount when a nested execution slashed first |
| `StakeRows.StampJoinIsThreshold` | src/client/rollback.js:635-722 | the exact-stamp join on orphaned unstakes clears precisely the stamps at or above height plus delay |
| `StakeRows.UndoIsBefore` | src/client/rollback.js:533-722 | restores and stamp reset together give the row the order of events gives |
| `StakeRows.RolledBackIsBefore` | src/client/rollback.js:533-722 | the same for whole tables |
| `StakeRows.OrphanedStep` | src/client/rollback.js:512-722 | a stake, unstake, slash or rotation of an orphaned block leaves no trace after the rollback |
| `StakeRows.NothingOrphaned` | src/client/rollback.js:366-385 | a rollback to an unreached height changes no row and no journal |
| `StakeRows.RestoreAmounts` | src/client/rollback.js:533-629 | the join loop over one table leaves each row's restored amount |
| `StakeRows.RestoreKeys` | src/client/rollback.js:574-596 | the join loop over one table leaves each row's restored signing key |
| `StakeRows.RollbackTables` | src/client/rollback.js:533-722 | amounts, keys and stamps in order, then the deletes, meet the specification |
| `InPlaceFlips.FlipKeeps` | src/client/rollback.js:391-510 | every forward flip keeps status and stamp columns consistent |
| `InPlaceFlips.FlipLeavesNoTrace` | src/client/rollback.js:391-510 | a flip by an orphaned block leaves no trace in the row once the ordered statements ran |
| `InPlaceFlips.UntouchedRow` | src/client/rollback.js:391-510 | a row flipped only below the height is left as it is |
| `InPlaceFlips.LateLatchReopens` | src/client/rollback.js:473-500 | a latch after a surviving terminal flip is undone wrongly if and only if the latch is orphaned |
| `InPlaceFlips.LateFireSurvives` | src/client/rollback.js:452-471 | a callback fired after its due block is un-fired if and only if the due block is orphaned |
| `ReplicaRollback.OrphanedStep` | src/client/rollback.js:366-742 | any write of an orphaned block to those tables leaves no trace after the rollback |
| `ReplicaRollback.RunKeeps` | src/client/rollback.js:385-742 | every run keeps the facts the statements rely on |
| `ReplicaRollback.RollbackIsReplay` | src/client/rollback.js:366-742 | rolling back to a height leaves actions, both stake families with their journals, delegations, requests, polls, feeds and bets exactly as the blocks below it alone would |
| `ReplicaRollback.ReplicaMatchesFreshSync` | src/client/rollback.js:366-742 | after any history of blocks and rollbacks those tables are the ones of the standing blocks alone |
| `ReplicaWrites.LastWriteStands` | src/client/rollback.js:512-722 | in every run an amount, signing key or deactivation stamp is what the last event to write it wrote |
| `ReplicaWrites.FlipsStand` | src/client/rollback.js:391-510 | in every run each flip is in its row to the end |
| `ReplicaWrites.InsertsStand` | src/client/rollback.js:917-934 | in every run each inserted row and each minted action is there to the end |
| `ReplicaWrites.UnflippedRowStands` | src/client/rollback.js:391-510 | an inserted row not flipped since is as it was inserted |
| `ReplicaRollback.FirstActionIndex` | src/db/actions.js:118-124 | the lowest action index at or above the height, none if there is none |
| `ReplicaRollback.FirstActionSplits` | src/client/rollback.js:917-934 | because action indices grow with blocks, that index separates orphaned rows from surviving ones |
| `ReplicaRollback.ResetFlips` | src/client/rollback.js:391-742 | the reset statements in order, then the delete keyed on the first orphaned action |
| `ReplicaRollback.Replica.RollbackIndexer` | src/client/rollback.js:366-742 | executes the statements on those tables in place, deletes included, and meets the rollback specification |
| `ReplicaRollback.RollbackReplica` | src/client/rollback.js:366-742 | on tables filled by any valid run, the executed rollback leaves the run of the surviving blocks |
| `CooldownMaturity.StepBalanced` | src/client/rollback.js:799-815 | every forward write keeps refund and release of each unstake paired |
| `CooldownMaturity.RollbackBalances` | src/client/rollback.js:189-248 | a rollback keeps them paired if and only if its target is at or above the gate or reverses no maturity |
| `CooldownMaturity.SecondRelease` | src/client/rollback.js:189-193 | below the gate a re-matured unstake ends with one refund and two releases |
| `CooldownMaturity.AlwaysBalanced` | src/client/rollback.js:189-248 | over every history with targets at or above the gate, one refund and one release when completed, neither when valid |
| `CooldownMaturity.BondConserved` | src/client/rollback.js:189-248 | over every such history refunds paid equal escrow released: the whole bond or nothing |
| `CooldownMaturity.RollbackIsReplay` | src/client/rollback.js:189-248 | at or above the gate the rolled-back book is the book of the surviving writes: every credit, escrow and status, in order |
| `CooldownMaturity.PostsStand` | src/client/rollback.js:799-815 | in every run of writes each credit, escrow, unstake and maturity is in the book to the end |
| `CooldownMaturity.BookMatchesFreshSync` | src/client/rollback.js:189-248 | over every history of writes and rollbacks at or above the gate the book is the one of the standing writes alone |
| `CooldownMaturity.DeleteJoined` | src/client/rollback.js:196-226 | deletes exactly the ledger rows joined to a reversed maturity |
| `CooldownMaturity.Tables.ReverseCooldownMaturities` | src/client/rollback.js:228-248 | exactly the credits, and at the gate the negative escrows, of maturities at or above the height on surviving unstakes go, matched by action, address and ticker, and exactly those unstakes are valid again |
| `EscrowGate.UnaffectedIsClear` | src/client/rollback.js:1446-1459 | the tickers outside the affected set are exactly those with no gate and no holding offer |
| `EscrowGate.RederivedIsDerived` | src/client/rollback.js:1446-1475 | whatever the tokens held, the pass over the affected tickers alone leaves every token its gate |
| `EscrowGate.RederivedTwice` | src/client/rollback.js:1446-1475 | a second pass, and a pass over right gates, changes nothing |
| `EscrowGate.LowestHolder` | src/client/rollback.js:1460-1468 | the lowest offer of the ticker whose latest status is open, cancelling or expiring |
| `EscrowGate.NewestStatusDecides` | src/client/rollback.js:1460-1468 | after a status row by a later action than all of the offer's, the offer holds its ticker if and only if it gives ownership and that status is open, cancelling or expiring |
| `EscrowGate.NoStatusHoldsNothing` | src/client/rollback.js:1460-1468 | an offer without status rows holds nothing, and none holds another ticker |
| `EscrowGate.OtherOffersKeep` | src/client/rollback.js:1460-1468 | a status row changes no other offer's answer, nor that of another kind under the same index |
| `EscrowGate.Replica.RederiveEscrowGate` | src/client/rollback.js:1448-1475 | the loop is the scoped pass, and so leaves every token its gate |
| `EscrowGate.Replica.ApplyBlock` | src/client/applier.js:1039-1058 | inserts, carried token rows, then the derive if a trigger table is named |
| `EscrowGate.Replica.RollBack` | src/client/rollback.js:917-953 | deletes by action index, then the derive, when the orphaned range holds an action |
| `EscrowGate.ApplyKeepsGates` | src/client/applier.js:43-55 | a block leaves the gates right if and only if it names a trigger table or carries only right gates |
| `EscrowGate.UntriggeredTakesRows` | src/client/applier.js:43-55 | a block that names none of the seven trigger tables takes its token rows as they come |
| `EscrowGate.RollbackKeepsGates` | src/client/rollback.js:917-953 | after a rollback every surviving token carries its gate |
| `EscrowGate.GatesAlwaysDerived` | src/client/applier.js:1031-1058 | every token carries its gate at every point of every run of blocks and rollbacks |
| `PricePurge.PriceSnapshots.Delete` | src/client/rollback.js:74-78 | a limited delete removes as many matching rows as its limit allows, or nothing when it times out or fails |
| `PricePurge.PriceSnapshots.Purge` | src/client/rollback.js:69-89 | terminates under any timeouts; on success exactly the BTC rows at or above the height are gone, and in any case no other; gives up only on a fault or on four timeouts in a row; the limit halves per timeout and stays at least one |
| `VerifiedTip.StepKeeps` | src/client/verified_tip.js:76-328 | every admissible step of every task keeps the protocol's invariant, both markers sound included |
| `VerifiedTip.JobStartKeeps` | src/client/verified_tip.js:98-191 | the head of each queued marker write, run in call order, is sound |
| `VerifiedTip.JobEndKeeps` | src/client/verified_tip.js:105-191 | so is its continuation, whether the write landed or not, unless it leaves a caller exposed under a marker |
| `VerifiedTip.WalkFinishKeeps` | src/client/verified_tip.js:296-310 | a block is noted only when it verified while the rows were unchanged |
| `VerifiedTip.RemovalDeleteKeeps` | src/client/verified_tip.js:148-174 | deleting rows keeps the invariant |
| `VerifiedTip.CrashKeeps` | src/client/verified_tip.js:76-84 | wherever the process stops, the durable marker alone is sound |
| `VerifiedTipShape.StepShape` | src/client/verified_tip.js:86-328 | every step, admissible or not, keeps rows, queue, removal and bootstrap in shape, and a verdict held over unchanged rows is about the version now stored |
| `VerifiedTipExact.AdmissibleExactly` | src/client/verified_tip.js:76-328 | a step keeps the invariant if and only if it is admissible: no caller is left free to land rows under a marker, and no marker read is delivered over an unverified block |
| `VerifiedTipExact.GuardIsExact` | src/client/verified_tip.js:76-328 | the same read off the state before the step: per risky event, which marker and which callers to check; such a guard holds if and only if the step keeps the invariant |
| `VerifiedTipExact.OnlyRiskyStepsGoWrong` | src/client/verified_tip.js:76-328 | every step but a walk's answer or delivered marker, a live gate, a removal's end, an empty start and a marker write's start or return is admissible whenever it can happen |
| `VerifiedTipExact.InadmissibleCanLie` | src/client/verified_tip.js:199-214 | after an inadmissible step a marker lies at once, or the next rows that land make it lie |
| `VerifiedTipExact.AdmissibleIffMarkersHold` | src/client/verified_tip.js:86-328 | a run is admissible if and only if at none of its points a marker lies or can be made to lie by the next rows that land |
| `VerifiedTipExact.MarkersNeverLie` | src/client/verified_tip.js:86-191 | in every admissible interleaving every block at or below either marker was verified or adopted with the rows now stored, and a walk returns ok only if that holds up to the tip it read |
| `VerifiedTipExact.RestartRewalks` | src/client/verified_tip.js:23-34 | after a crash the next walk starts at or below the first block not vouched for |
| `VerifiedTipExact.HaltRestsOnStoredRows` | src/client/verified_tip.js:284-328 | whenever any run, admissible or not, returns a halt, an earlier state of it held a halt verdict on that block about the version then stored, with no removal since the walk started |
| `VerifiedTipProgress.BadVerdictIsAnswered` | src/client/verified_tip.js:296-328 | in any run without a crash a bad verdict over unchanged rows is the walk's answer, halted on its block for a halt, never ok; over changed rows it is dropped and the walk answers held |
| `VerifiedTipProgress.OkCoversTip` | src/client/verified_tip.js:262-316 | in any run a walk answers ok only over an empty replica or with the marker at or above the tip it read, or with everything up to it below the truncation floor |
| `VerifiedTipProgress.PassedHasCause` | src/client/verified_tip.js:18-45 | in any run a version counts as verified only if it did at the start, or a step found it clean in the rows with none being removed, took it on trust below a seed or a lowering without a marker, or adopted it as a snapshot or a join block |
| `VerifiedTipProgress.SavesNeverForgotten` | src/client/verified_tip.js:121-143 | a walk that waits for its save has it queued or in flight |
| `VerifiedTipProgress.OwedHeightIsWritten` | src/client/verified_tip.js:121-143 | a save writes the in-memory marker exactly when no removal came between and no write of that height was reported since |
| `VerifiedTipProgress.FailedWriteStaysOwed` | src/client/verified_tip.js:121-143 | a marker write that reports failure leaves its height to be written again |
| `VerifiedTipProgress.CallersAreAnswered` | src/client/verified_tip.js:205-211 | a caller waits until the shared walk answers and is let through if it answers ok |
| `VerifiedTipProgress.SeedAdoptsBelow` | src/client/verified_tip.js:251-260 | a seed adopts only rows below both the legacy height and the tip |
| `VerifiedTipProgress.RemovalOpensLowered` | src/client/verified_tip.js:148-174 | in any run a removal is free to delete only with the marker at or below what stays, written durably unless it was there already |
| `VerifiedTipProgress.FailedLoweringDeletesNothing` | src/client/verified_tip.js:148-174 | a lowering that fails opens nothing and deletes nothing |
| `VerifiedTipProgress.FailedAdoptLandsNothing` | src/client/verified_tip.js:176-191 | a window's marker write that fails lands nothing and leaves both markers alone |
| `VerifiedTipProgress.StoppedWalkHolds` | src/client/verified_tip.js:224-240 | a walk that is stopped or cannot read answers held and changes no marker |
| `VerifiedTipProgress.NoWalkDuringRemoval` | src/client/verified_tip.js:219-221 | a walk begins exactly when no rows are being removed, and else answers held |
| `VerifiedTipProgress.EmptyWalkIsOk` | src/client/verified_tip.js:225-226 | a walk over no rows answers ok; one whose rows changed evaluates no block and answers held |
| `VerifiedTipProgress.BadLiveBlockIsDropped` | src/client/verified_tip.js:108-119 | a live block that does not recompute clean raises nothing |
| `VerifiedTipTasks.WalkCompletes` | src/client/verified_tip.js:221-316 | from rest, whatever the marker, a clean walk can end ok with the marker covering the tip and every waiting caller let through |
| `VerifiedTipTasks.LiveBlockCompletes` | src/client/verified_tip.js:98-119 | in steady state a clean live block leaves both markers at the new tip |
| `VerifiedTipTasks.ReorgCompletes` | src/client/verified_tip.js:145-174 | from rest a reorg can delete the rows above any stored block, with the markers lowered first |
| `VerifiedTipTasks.SnapshotCompletes` | src/client/verified_tip.js:176-191 | a full snapshot can replace the rows, all adopted, with both markers at the new tip |
| `VerifiedTipTasks.WindowCompletes` | src/client/verified_tip.js:176-191 | a window can land above an adopted join block, with both markers at it |
| `VerifiedTipTasks.CatchUpCompletes` | src/client/verified_tip.js:193-197 | a catch-up over no rows can start at any block, where its walk then begins |
| `VerifiedTipOrdinary.OrdinaryRunsAreAdmissible` | src/client/verified_tip.js:18-45 | a run that avoids the listed causes, reorgs, failed lowerings, lost raises and saves and crashes included, is admissible throughout |
| `VerifiedTipRuns.StaleLoadGoesWrong` | src/client/verified_tip.js:78-84 | an admissible run leads to a marker read delivered above the tip after a reorg let a live block through, and so to the lie |
| `VerifiedTipRuns.StaleSeedGoesWrong` | src/client/verified_tip.js:251-260 | another leads to a seed stored above the tip in the same way, and so to the lie |
| `VerifiedTipRuns.LostAdoptGoesWrong` | src/client/verified_tip.js:176-191 | another to a live block let through under a durable marker that a lost fail-soft adopt left above the tip, which then vouches for it |
| `VerifiedTipRuns.LostSaveGoesWrong` | src/client/verified_tip.js:121-143 | another, across a restart that seeds and verifies the tip, to a caller let through under that marker because the walk's own fail-soft save was lost, which then vouches for it |
| `VerifiedTipRuns.MarkerOverEmptyGoesWrong` | src/client/verified_tip.js:193-197 | a catch-up onto an emptied replica starts under a durable marker left from before, which vouches for the rows that land |
| `RollbackDepth.RollbackGuard.DepthFor` | src/client/rollback_guard.js:26-30 | the cumulative depth; forgets only a finished streak |
| `RollbackDepth.RollbackGuard.Exceeds` | src/client/rollback_guard.js:39-41 | refuses exactly the depths over the limit |
| `RollbackDepth.RollbackGuard.Record` | src/client/rollback_guard.js:33-37 | starts a streak at the tip or lowers its low |
| `RollbackDepth.RollbackGuard.RestoreState` | src/client/rollback_guard.js:50-58 | restores a pair with 0 <= low <= peak <= 2^53 - 1 and nothing else |
| `RollbackDepth.RefinesRunningMaximum` | src/client/rollback_guard.js:14-41 | while no rewind was admitted beyond the limit, refuses exactly when highest tip ever minus target plus one is over it |
| `RollbackDepth.HighestIsMaximum` | src/client/rollback_guard.js:14-41 | the highest tip of that statement is the maximum of all tips held, and a rewind removes its target and everything above |
| `RollbackDepth.AgreesExactly` | src/client/rollback_guard.js:26-41 | in any run the guard agrees with the running maximum on every target if and only if its reference is the highest tip ever held; otherwise exactly the targets in the gap pass |
| `RollbackDepth.ClimbOutNeedsAdmission` | src/client/rollback_guard.js:60-63 | the climb-out clause ends a streak below its peak only after an admitted over-limit rewind |
| `RollbackDepth.LaterTargetsStayAbove` | src/client/rollback_guard.js:60-63 | later accepted targets stay strictly above the low that rewind left |
| `RollbackDepth.StreakIsRemembered` | src/client/rollback_guard.js:32-37 | in every run the guard of a streak holds the tip before the streak's first rewind and the least target of its rewinds |
| `RollbackDepth.AdmissionBreaksTheMaximum` | src/client/rollback_guard.js:60-63 | after an admission a rewind can pass that the highest tip ever would refuse |
| `RollbackDepth.RestartGuard` | src/client/rollback_guard.js:43-58 | saving one guard and restoring the saved pair into a new one gives the value every run's restart step has |
| `RollbackDepth.RestartChangesNothing` | src/client/rollback_guard.js:43-58 | saving and restoring at any point of any run gives the same guard |
| `HaltPersistence.StepKeeps` | src/client/halt_persistence.js:50-163 | every admissible step of every write, retry, start and clear keeps the invariant |
| `HaltPersistence.AdmissibleExactly` | src/client/halt_persistence.js:50-163 | a step keeps the invariant if and only if it is admissible: a clear ends with no harmful write of the cleared halt under way, or behind a row that keeps the next start halted |
| `HaltPersistence.InadmissibleCanLose` | src/client/halt_persistence.js:79-97 | from every inadmissible clear, admissible steps lead to a landed, uncleared halt that neither record holds |
| `HaltPersistence.AdmissibleIffHaltsHold` | src/client/halt_persistence.js:50-163 | a run is admissible if and only if at none of its points admissible steps lead to the loss of a landed halt |
| `HaltPersistence.HaltIsDurable` | src/client/halt_persistence.js:50-163 | once the row or the copy landed, one of them holds the halt until a clear lands, and no block is applied |
| `HaltPersistence.StartFailsClosed` | src/client/halt_persistence.js:104-135 | in any run, after a startup read that finds a record or cannot read one, no block is applied until the next start or the end of an operator clear |
| `HaltPersistence.RestartRestoresHalt` | src/client/halt_persistence.js:99-135 | wherever an admissible run stops with a landed halt, the next readable start is halted on the newest row or, without one, on that halt, writing its row again |
| `HaltRetry.RetryGuardIsExact` | src/client/halt_persistence.js:137-170 | a step keeps an owed row's write or retry alive if and only if its guard holds: no failure of an earlier halt's write takes the timer or the durable flag from it, no failed clear forgets the retry it cancelled |
| `HaltRetry.RetriedIffGuarded` | src/client/halt_persistence.js:50-170 | over every run, each step meets its guard if and only if at every point an owed row is being written or its retry is armed |
| `HaltRetry.OwedRowCanLand` | src/client/halt_persistence.js:137-163 | from such a point steps of that write alone lead to the row written and known to be |
| `HaltRetry.StaleRetryTakesTimer` | src/client/halt_persistence.js:137-163 | an admissible run in which the failing retry of a cleared halt cancels the retry of the next one |
| `HaltRetry.FailedClearForgets` | src/client/sync.js:4309-4343 | an admissible run after which a halt is reported durable although no row holds it and nothing writes it |
| `HaltTasks.CleanStartApplies` | src/client/halt_persistence.js:99-135 | a start that finds no record leads to a process that applies |
| `HaltTasks.RowHaltsStart` | src/client/sync.js:935-944 | a start that finds active rows waits, halted on the newest |
| `HaltTasks.UnreadableStartIsTriedAgain` | src/client/sync.js:910-954 | a start that could not read the rows leads to another start |
| `HaltTasks.WrittenRowTakesCopyAway` | src/client/halt_persistence.js:75-97 | once the row is written its copy is deleted, or overwritten with the empty value when the delete reports failure |
| `HaltTasks.ClearLifts` | src/client/sync.js:4309-4352 | an operator clear whose writes land leaves no row, no copy and no halt |
| `HaltTasks.FailedClearChangesNothing` | src/client/sync.js:4335-4343 | a clear whose row update fails changes nothing but the retry, armed if the row was owed |
| `HaltTasks.RetriedHaltHasOneRow` | src/db/sync_halt.js:27-44 | over runs whose writes see the newest row, a retried halt has one row |
| `HaltTasks.UnseenWriteAddsRow` | src/db/sync_halt.js:27-44 | a write that does not see it adds a row |
| `HaltPersistence.LateDropLosesHalt` | src/client/halt_persistence.js:79-97 | an admissible run from a stopped process leads to such a clear, with a copy drop in flight |
| `LookupRepair.SurvivorsExactly` | src/client/applier.js:819-849 | what survives the scan shares nothing with the page or is one of its converged pairs |
| `LookupRepair.SameKeyExactly` | src/client/applier.js:819-849 | two rows have one natural key exactly when they agree on every column of it |
| `LookupRepair.Lookup.ReconcileLookupRows` | src/client/applier.js:819-849 | refuses, touching nothing, exactly when a page row lacks its id or key; otherwise deletes exactly the conflicting rows |
| `LookupRepair.Lookup.InsertIgnore` | src/client/applier.js:754-798 | keeps every local row and adds only page rows: every one whose key was free, every one at all without a unique index, and with one none whose key is taken |
| `LookupRepair.Lookup.Repair` | src/client/applier.js:541-552 | the table becomes the page's id and key pairs plus the rows sharing neither with it |
| `LookupRepair.RepairKeepsKeysUnique` | src/client/applier.js:541-552 | keys are unique after the repair if they were among the untouched rows |
| `LookupRepair.RepairConverges` | src/client/applier.js:816-830 | a second repair retires nothing |
| `LookupRepair.RetireHolder` | src/client/applier.js:886-909 | at most the one stale holder of a batch row's key goes |
| `LookupRepair.RetiredKeyIsFree` | src/client/applier.js:886-909 | once its stale holder is gone the batch row's key is free, so the row lands on re-insert |
| `LookupRepair.RetireStaleNaturalKeyRows` | src/client/applier.js:862-912 | retires each batch row's stale holder in its turn, never an id the page carries or one outside its id window, and nothing on any other warning |
| `Checkpoint.CountSigners` | src/checkpoint.js:182-192 | counts the distinct qualified keys with some verifying entry, whatever the order, duplicates or garbage |
| `Checkpoint.QuorumBounds` | src/checkpoint.js:156-156 | the quorum is the least number over half of n and over twice the tolerated faults, at most n minus those faults, and 2f+1 when n is 3f+1 |
| `Checkpoint.AcceptedSetsIntersect` | src/checkpoint.js:153-212 | two accepted signer sets share a signer, f+1 of them when n is 3f+1 |
| `Checkpoint.AcceptedCheckpointsShareSigner` | src/checkpoint.js:153-219 | two checkpoints accepted by count have a validator who signed both |
| `Checkpoint.IndexStakeSources` | src/consensus/stake_weighted_quorum.js:103-127 | first weight per source, last source per key; fails closed on a blank source or an unreadable first weight |
| `Checkpoint.SumStakeWeights` | src/consensus/stake_weighted_quorum.js:130-142 | the total over distinct sources, or none on a negative weight or a total that is not positive |
| `Checkpoint.SumSignerStake` | src/consensus/stake_weighted_quorum.js:144-160 | the weight of the distinct sources the signers stand for |
| `Checkpoint.MeetsStakeThreshold` | src/consensus/stake_weighted_quorum.js:178-201 | accepts exactly when the snapshot reads and the signers' sources exceed two thirds of the stake |
| `Checkpoint.WeightedEntryCarriesWeight` | src/checkpoint.js:134-140 | an entry passes exactly with a source that is not all white space and a finite number not below zero |
| `Checkpoint.StakeAcceptedIntersect` | src/consensus/stake_weighted_quorum.js:162-201 | two signer sets accepted by stake share sources with more than a third of it |
| `Checkpoint.VerifyCheckpoint` | src/checkpoint.js:153-219 | valid exactly when well formed and quorate by the regime's rule |

## Left out

- SHA-256, Ed25519, hex and buffer conversion and the text of `canonicalAmount`: hashes are free constructors, signature
  checks a boolean oracle, amounts numbers. The block-content leaves and the stake leaves of src/merkle.js are data
  encodings only.
- The bit arithmetic of the proof bitmap and of tree indices: a bitmap is a sequence of bits, an index a natural number,
  without JavaScript's 32-bit shifts.
- VerifiedTip: the interleaving of tasks is a step function on state values, not an object with methods, and the
  window loops are single steps of a walk; a long walk's periodic marker write may happen after any block.
- VerifiedTip: stored history below a seeded marker, below a lowering that finds no marker, in a full snapshot and at
  the join block of a window counts as adopted, as the source documents. The stored tip's state hash check is part of
  the verdict. A snapshot lands in one step. Walks do not start during a bootstrap, and a live block is let through for
  the height above the stored tip or below it, not for one further up.
- VerifiedTip: the steady-state gate compares the marker with the stored tip; the source compares it with the last
  applied block in memory (src/client/verified_tip.js:215-217), so a redelivered block that is already stored can pass
  its gate and not the model's.
- VerifiedTipOrdinary.OrdinaryRunsAreAdmissible: its causes are sufficient to avoid; the exact condition is the one of
  `AdmissibleIffMarkersHold`.
- HaltPersistence: likewise a step function on values. A clear that reports failure is taken not to have landed, a copy
  is never damaged from outside, and a write sent by a crashed process does not land after the restart has read.
- RollbackDepth: the reset of the guard by a full snapshot or by an operator clear, and the check of the saved row
  in client/sync.js that halts instead of resetting, are not part of the runs.
- ReplicaRollback: balances, index lookups, markets, icons, pubkeys, archive heads, ATTEST batch heads, validator
  rewards, token refolds, COINPay and cross-chain mirrors are not modelled; nor is the decoder rollback, a truncated
  replica, an older schema with missing tables, or the path with no coin and so no activation delay. The cooldown
  maturities, the escrow gate and the price purge of the same rollback are proved in their own modules.
- ReplicaRollback: the poll columns that are NULL exactly while a poll is open are one `outcome` column, and both
  delegation tables share one row shape.
- ReplicaRollback.RollbackIsReplay, ReplicaMatchesFreshSync, Replica.RollbackIndexer and RollbackReplica: state nothing
  of those other tables.
- InPlaceFlips: feed latches before terminal flips and callbacks fired at their due block are assumed of the forward
  writers; `LateLatchReopens` and `LateFireSurvives` say exactly when the statements go wrong otherwise.
- StakeRows: rotations of one row, and capability slashes of one row, come in the order of their journal columns, as the
  source's tiebreaks presume.
- CooldownMaturity: maturities are processed at the unstake's own cooldown end, and no other writer posts under an
  unstake's identity; maturities that mint their own action need no reversal and are ordinary actions here.
- CooldownMaturity.BondConserved: an unstake's amount is fixed; slashes of a cooling-down row, and their restore, are
  in StakeRows.
- EscrowGate: ticker text and ticker id are one key.
- PricePurge: a driver result without a row count, which the source reads as zero rows, is not modelled.
- LookupRepair: batches of 100 or 500 rows, binary key decoding and NULL key columns are not modelled.
- Checkpoint: the canonical signing string, the commitment and supersession gates are one boolean; white space in a
  blank source is space, tab and line ends; keys arrive lower-cased.
- Snapshot building, the server side, HTTP and WebSocket plumbing, timers and retry delays, configuration and the gate
  registry: only shallow claims, or a gate is an arbitrary predicate on height.
