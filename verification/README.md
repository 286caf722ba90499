# Verification of the chain node's consensus and execution logic

This project models, in Dafny, the parts of a proof-of-work blockDAG node that
every node must agree on, and proves what they promise:

- **The block DAG** (`ghostdag.dfy`, `dag_store.dfy` and the files between them):
  selected parent, merge set, k-cluster colouring, blue score and work,
  incremental tips and the memoised, height-pruned ancestry search. The store is
  a class whose worklists and loops are proved to compute functions of a DAG
  value; colouring exactness, order independence and the exactly-once
  linearisation are proved of those functions.
- **The seam between DAG and state** (`ordering.dfy`, `rounds.dfy`,
  `reordering.dfy`, `fee_order.dfy`, `execution.dfy`, `parallel.dfy`, `speculation.dfy`,
  `round_guard.dfy`, `parallel_block.dfy`, `block_guard.dfy`, `divergence.dfy`,
  `reorg.dfy`, `executor.dfy`, `replay.dfy`,
  `executed_chain.dfy`, `replay_refinement.dfy`, `tx_index.dfy`,
  `backend.dfy`): conflict layering, sequential and speculative execution, the
  undo journal, the lockstep reorg walk, the executor that must always agree with
  a replay from genesis, and the index receipts are looked up through.
- **Synchronisation** (`protocol.dfy`, `sync.dfy`, `sync_invariant.dfy`,
  `sync_safety.dfy`, `sync_runs.dfy`, `delivery.dfy`, `dag_sync.dfy`): the
  message-driven machine with its orphan pool, waiting index and requests, its
  invariant over every run, and delivery independence.
- **Difficulty and work** (`compact.dfy`, `codec.dfy`, `asert.dfy`, `work.dfy`)
  and **the transaction pool** (`pool.dfy`, `selection.dfy`, `tx_pool.dfy`).

Components the program updates in place are classes (`DagStore`, `WorldState`,
`ChainExecutor`, `Backend`, `DagSync`, `TxPool`). Each of their methods is proved
equal to a function on plain values, and the theorems are about those functions.

## How the outside world appears

- A header carries its hash as a field; that two headers with one hash are one
  header is a hypothesis where it matters (`OrderIndependence`).
- `U256` is a natural below 2^256 with explicit saturation; other widths are
  natural numbers with explicit saturation where the program saturates.
- One EVM transaction is a parameter: a deterministic function of accounts,
  context, beneficiary and transaction that yields the changed accounts and the
  accounts it depends on. The priority-fee reward is modelled on top of it. Lawful
  means that it keeps to what it reads (`Framed`) and sets no impossible flag
  (`HonestFlags`).
- State root, receipts root and the base-fee rule are function parameters.
- Clocks are arguments. Threads that speculate a round are a map over the round,
  since their results are sorted by index.

## Where a promise needs a condition

- Colouring: for blues merged by older chain blocks the code looks at the size
  recorded when they were merged, so exactness is stated for a block's own merge
  set; `VerdictIsClusterRule` says what is checked for the older ones.
- Ancestry answers last exactly for present descendants; an answer about an
  absent one is remembered and goes stale (`AnswersLastExactly`).
- Blue work grows strictly along ancestry exactly until it saturates.
- Layering keeps the order of transactions that share a declared key, but a fee is
  paid to a miner no key names: where a pair it turns round pays into one of the
  other's keys the order shows (`LayeredBlockIsBaseSequence` and, exactly,
  `FeesOutOfOrderShow`).
- A validated round can still differ from sequential execution in three ways: a fee
  credited inside the round makes a later transaction executable
  (`ValidatedRoundCanDiverge`); a later transaction reads the account credited and
  does otherwise (`ValidatedRoundCanMisread`); or the beneficiary's entry carries a
  flag that goes with the fee split off it (`ValidatedRoundCanSpare`). The third
  needs flags no EVM under EIP-161 and EIP-6780 sets, which `HonestFlags` states and
  `OwnEntryDecides` characterises. For the first two, `Guarded` is what validation
  would have to ask besides, computed from the state before the round, and
  `RoundGuard.SpeculativeCommitIsSequential` says that it is exact.
- A fallback round counts gas from zero; `FallbackExact` says exactly when that
  shows. `EitherWayIsTheSame` puts guarded rounds and fallbacks that overdraw
  nothing together for a whole block, and says that this is exact too. The
  comment at `crates/chain/src/executor.rs:433-435` that the result is always the
  sequential one does not hold without those conditions.
- Undoing the last record over a pruned one leaves the tip at genesis
  (`LastRecordSpent`); `AdvanceIsReplay` gives the exact condition, and
  `VirtualTipUnwinds` shows the node itself never meets that case.
- `add` may accept a transaction and evict it in the same call
  (`AcceptedIsHeld`). The comment on `effective_tip` says it is what a miner
  earns; the code treats a missing priority cap as zero (`TipIsWhatMinersEarn`).

## Model

| member | source | states |
|---|---|---|
| DagStores.DagStore.IsAncestorOf | crates/ghostdag/src/dag.rs:525-575 | For a present descendant and a sound cache, the pruned and remembered search answers exactly reflexive-transitive reachability along parent edges and leaves the cache sound; a remembered answer is returned as remembered. |
| DagStores.DagStore.Search | crates/ghostdag/src/dag.rs:547-574 | Breadth-first search with height pruning finds the ancestor exactly when a chain of parent edges leads to it. |
| DagStores.GrowthKeepsSound | crates/ghostdag/src/dag.rs:224-249 | Every remembered answer about present blocks stays correct when blocks are added. |
| DagStores.AbsentDescendantGoesStale | crates/ghostdag/src/dag.rs:540-542 | In any parent-closed store, an answer remembered about an absent descendant is right when given and wrong once that block arrives as a child of the ancestor. |
| DagStores.AnswersLastExactly | crates/ghostdag/src/dag.rs:525-586 | An ancestry answer stays right in every later store exactly when its descendant was present when it was given. |
| DagStores.ExhaustedSearch | crates/ghostdag/src/dag.rs:547-574 | When nothing is left to explore, skipping every block no higher than the ancestor has lost no path to it. |
| DagStores.DagStore.OrderedMergeset | crates/ghostdag/src/dag.rs:339-382 | The worklist returns the block's past minus its selected parent's past in topological-sort order, or the size error exactly when that set exceeds the limit. |
| DagStores.ExhaustedWalk | crates/ghostdag/src/dag.rs:339-382 | When the worklist is empty, what was collected is exactly the merge set. |
| DagStores.DagStore.SortTopologically | crates/ghostdag/src/dag.rs:384-420 | The multi-pass sort emits the specified order of the given blocks. |
| Topology.TopologicalSortOrders | crates/ghostdag/src/dag.rs:384-420 | The multi-pass sort is a permutation of the set in which a block follows every parent it has in the set, and its fallback of dumping the rest never fires. |
| Topology.TopologicalSortIsPlainSort | crates/ghostdag/src/dag.rs:384-420 | The multi-pass sort equals the plain sort by (blue work, hash) exactly when that sort already puts parents first. |
| BlueWorks.UnsaturatedSortIsPlain | crates/ghostdag/src/dag.rs:384-420 | While blue work has not saturated, the multi-pass sort is the plain sort by (blue work, hash). |
| BlueSets.MergedIsPastDifference | crates/ghostdag/src/dag.rs:339-382 | A block's recorded merge set holds exactly the strict ancestors of the block that its selected parent does not reach. |
| BlueSets.BlueScoreCountsBlues | crates/ghostdag/src/dag.rs:286-290 | A block's blue score is the size of its blue set, each blue counted once. |
| DagStores.DagStore.ColourOne | crates/ghostdag/src/dag.rs:426-495 | The loops over own blues and the selected chain give the specified verdict, anticone count and size updates. |
| Colouring.VerdictIsClusterRule | crates/ghostdag/src/dag.rs:426-495 | A candidate is blue exactly when no more than k blues are listed, its anticone within the blue set has at most k members, and no blue it is concurrent with would be pushed past k (own blues by their exact anticone, older chain blues by the size recorded by the chain block that merged them); its recorded count is then that anticone's size. |
| Colouring.ColouringExactness | crates/ghostdag/src/dag.rs:262-290 | For every blue of a block's own merge set the recorded anticone size is exactly the number of blocks of its blue set concurrent with it, at most k; at most k + 1 blues are listed; blue score is the size of the blue set; blues and reds together are the selected parent and the merge set. |
| DagStores.DagStore.ComputeGhostdag | crates/ghostdag/src/dag.rs:252-311 | The computed data is the specified function of the store, or the merge-set size error. |
| DagStores.DagStore.Add | crates/ghostdag/src/dag.rs:224-249 | Accepts, or refuses with the first applicable error, exactly as specified; a refused header changes no header, data, child or tip; an accepted one keeps tips, child edges and the cache exact. |
| DagStores.TipsAfter | crates/ghostdag/src/dag.rs:236-246 | Removing the parents and adding the newcomer keeps the incremental tip set equal to the blocks without children. |
| OrderIndependence.DeriveLocal | crates/ghostdag/src/dag.rs:252-311 | Everything derived for a block, errors included, depends only on the block's past. |
| OrderIndependence.AddBlockKeepsConsistent | crates/ghostdag/src/dag.rs:224-249 | Adding a block changes no held block's data and keeps every block's data what would be derived for it in the grown store. |
| OrderIndependence.OrderIndependence | crates/ghostdag/src/dag.rs:192-311 | Whatever was inserted and in whatever order, with refusals, two stores of one genesis, k and limit hold identical data for every block they share; with the same blocks they are the same store, so tips, virtual selected parent and selected chains coincide. |
| BlueWorks.ChildOutworksParent | crates/ghostdag/src/dag.rs:292-296 | A child never has less blue work than a parent, and strictly more exactly when the parent's has not saturated. |
| BlueWorks.DescendantOutworksAncestor | crates/ghostdag/src/dag.rs:292-296 | The same along any ancestry. |
| BlueWorks.VirtualSelectedParentIsGreatest | crates/ghostdag/src/dag.rs:192-201 | The virtual selected parent, chosen among tips, has the greatest blue work of the whole DAG and beats every unsaturated block in (blue work, hash). |
| DagStores.DagStore.SelectedTip | crates/ghostdag/src/dag.rs:199-202 | Returns the specified virtual selected parent. |
| DagStores.DagStore.SelectedParentChain | crates/ghostdag/src/dag.rs:204-222 | Returns the chain of selected parents, tip first, down to genesis. |
| Work.ForTargetIsExpectedHashes | crates/ghostdag/src/work.rs:17-29 | The complement form is exactly floor(2^256 / (target + 1)) for every nonzero target, with zero the one saturated case. |
| Work.HarderTargetsAreMoreWork | crates/ghostdag/src/work.rs:17-29 | Work never falls as the target gets harder. |
| Linearisation.ExactlyOnceLinearisation | crates/ghostdag/src/ordering.rs:53-58 | Base sequences along a tip's selected chain, oldest first, list every block of the tip's past and the tip exactly once, genesis first, every parent before its child. |
| Linearisation.BaseSequenceIsNew | crates/ghostdag/src/ordering.rs:53-58 | A chain block's base sequence lists, once each, exactly the blocks it reaches that its selected parent does not. |
| Ordering.Rounds | crates/ghostdag/src/ordering.rs:92-108 | The last-touch pass assigns every transaction its depth in the conflict graph, saturating at 32 bits. |
| Ordering.DepthIsLongestChain | crates/ghostdag/src/ordering.rs:92-108 | Depth is one less than the longest conflict chain ending at the transaction. |
| Ordering.DepthIsLeast | crates/ghostdag/src/ordering.rs:92-108 | Depth is pointwise least among all layerings that put conflicting transactions in rising layers. |
| Ordering.LayerAndSort | crates/ghostdag/src/ordering.rs:65-88 | The result lists every index once, by round and then by base position. |
| Ordering.CanonicalIsTheOrder | crates/ghostdag/src/ordering.rs:65-88 | There is exactly one such order. |
| Ordering.ConflictsKeepOrder | crates/ghostdag/src/ordering.rs:65-88 | No conflicting pair is ever inverted, saturated or not. |
| Ordering.RoundsAreDisjoint | crates/ghostdag/src/ordering.rs:92-108 | Two conflicting transactions share a round exactly when the earlier one's depth has reached the 32-bit ceiling. |
| Rounds.PartitionRounds | crates/chain/src/parallel.rs:97-116 | The touched-set loop computes the specified grouping of the order. |
| Rounds.PartitionRecoversRounds | crates/chain/src/parallel.rs:97-116 | Grouping the canonical order by touched keys gives back exactly the assigned rounds, none empty and nothing lost, if and only if no conflict depth passes the 32-bit ceiling. |
| Reordering.LayeringPreservesMeaning | crates/ghostdag/src/ordering.rs:65-88 | For transactions that read and write only inside their declared keys and may each pay a fee outside them, the layered order leaves the accounts the base sequence leaves and every transaction does the same in both, provided no pair that layering turns round pays into a key of the other. |
| Reordering.OrderIsImmaterial | crates/ghostdag/src/ordering.rs:65-88 | The same for any order that lists each transaction once and inverts only pairs that neither conflict nor pay into each other's keys. |
| Reordering.LayeredBlockIsBaseSequence | crates/chain/src/executor.rs:382-428 | For a block in which no transaction is over the running budget in either order, sequential execution in layered order, with the reward each miner earns outside the declared keys, leaves the accounts of the base sequence and gives every transaction the same success, gas and logs, provided no fee of a pair that layering turns round reaches a key of the other. |
| Reordering.RoomyBlockIsBaseSequence | crates/chain/src/executor.rs:382-428 | So it does from any accounts when there is room for all the gas the transactions declare. |
| FeeOrder.FeesOutOfOrderShow | crates/ghostdag/src/ordering.rs:65-88 | That condition is exact: for every block in which such a fee does reach such a key there is an EVM, confined to the declared keys and gas, in which one of the pair does otherwise in layered order. |
| FeeOrder.FeesCanReach | crates/chain/src/bodies.rs:36-50 | Such blocks exist: access keys name sender, destination and access list but not the miner, so a miner's own transaction can be moved before one that pays it. |
| Execution.ExecuteSequentially | crates/chain/src/executor.rs:382-428 | State and record after the loop are those of the step-by-step specification: gas rule, skips, commits, notes before commits. |
| Execution.SequentialLedger | crates/chain/src/executor.rs:543-563 | The record of a sequential run is the ledger of exactly the transactions that run executed with the effects they had: hashes and receipts in lockstep, cumulative gas the prefix sum of gas used, executed plus deferred all that was given. |
| Execution.FeeIsProduct | crates/chain/src/parallel.rs:191-197 | The fee paid for an effect is the price times the gas used. |
| Execution.AbsorbConcatenatesLedgers | crates/chain/src/executor.rs:569-581 | Folding a fallback round in and rebasing its receipts gives the record of both traces end to end. |
| Execution.SequentialCovers | crates/chain/src/executor.rs:407-413 | The undo record holds the pre-value of every account the run changed, and only pre-values. |
| WorldStates.WorldState.Commit | crates/execution/src/state.rs:202-243 | Whatever order the entries come in, every account ends as its entry's flags say and no other account changes. |
| Journal.Apply | crates/chain/src/journal.rs:63-72 | Restores every noted account, removing those that did not exist, and touches no other. |
| Journal.UndoRestores | crates/chain/src/journal.rs:37-72 | Applying a record that covers a run restores the state before it exactly. |
| Journal.MergedCovers | crates/chain/src/journal.rs:56-61 | Merging a later run's record keeps the cover of both runs: the earlier pre-value wins. |
| ChainInput.DeduplicatedOnce | crates/chain/src/executor.rs:303-306 | Every transaction hash of the base sequence survives exactly once. |
| ChainInput.FirstOccurrenceWins | crates/chain/src/executor.rs:303-306 | The entry kept is the first to carry its hash, so its block's miner is credited. |
| ChainInput.CollectInput | crates/chain/src/executor.rs:295-306 | The loops collect the tagged, deduplicated transactions of the base sequence. |
| ChainInput.InputIsStable | crates/chain/src/executor.rs:295-306 | What a held block executes never changes as more blocks and bodies arrive. |
| Parallel.Validate | crates/chain/src/parallel.rs:242-262 | Reports a conflict exactly when some speculation touched its beneficiary or an earlier one wrote what a later one reads or writes, and what it reports is one. |
| Parallel.ExecuteRoundsParallel | crates/chain/src/executor.rs:438-506 | The round loop computes the specified progress; every round is counted once as committed or fallen back. |
| RoundGuard.SpeculativeCommitIsSequential | crates/chain/src/executor.rs:464-502 | A validated round of distinct hashes commits to exactly the accounts, undo record, gas, receipts and counts of running it in order, with every lawful EVM that does the same before the round, if and only if it is guarded: along the committed round no executed transaction read an account that an earlier one credits, and none that was not executable is met within budget once something has changed. All of it is computed from the state before the round; no credited balance may be 2^256 - 1. |
| RoundGuard.UnguardedRoundShows | crates/chain/src/parallel.rs:242-262 | For any validated round that breaches that guard there is an EVM as lawful, with the same speculations and so the same verdict, whose committed round is not the sequential one. |
| SpeculativeCommit.AwakeningDecides | crates/chain/src/executor.rs:464-502 | For one given EVM and a validated round in which no executed transaction read an account an earlier one credits: committing equals running in order if, and for distinct hashes only if, no transaction that was not executable before the round is within budget and executable at its turn. |
| SpeculativeCommit.CommitRecordExact | crates/chain/src/executor.rs:464-502 | For one given EVM and any validated round of distinct hashes: the record alone - receipts, hashes, gas and counts - equals the sequential one if and only if every transaction within budget does at its turn what it was speculated to do, as far as a receipt tells. |
| Divergences.ValidatedRoundCanDiverge | crates/chain/src/executor.rs:464-502 | A concrete validated round, with a transaction not executable before the round whose sender is funded by a fee credited in it, whose parallel result differs from the sequential one. |
| Divergences.ValidatedRoundCanMisread | crates/chain/src/parallel.rs:242-262 | A concrete validated round of transactions all executable before it, one reading an account another one's fee credits, whose parallel receipts differ from the sequential ones. |
| Divergences.ValidatedRoundCanSpare | crates/chain/src/parallel.rs:203-220 | With an EVM that could destroy an account without a new nonce, a concrete validated round keeps a beneficiary that sequential execution destroys: the split of the fee looks at no flag. |
| Divergences.OwnEntryDecides | crates/chain/src/parallel.rs:203-220 | A validated round of one transaction equals running it exactly when the transaction does not fit or crediting its beneficiary leaves what committing the beneficiary's whole entry would. |
| SpeculativeCommit.HonestOwnEntry | crates/chain/src/parallel.rs:203-220 | With flags as EIP-161 and EIP-6780 make them, wherever validation lets the beneficiary's entry pass, splitting the fee off it loses nothing. |
| ParallelBlock.FallbackExact | crates/chain/src/executor.rs:455-461 | A fallback round of any length and distinct hashes, counted from zero gas and absorbed, equals continuing sequentially if and only if no step meets an executable transaction that fits the restarted budget and not the running one. |
| Divergences.FallbackCanOverdraw | crates/chain/src/executor.rs:455-461 | A concrete fallback round that executes transactions the running block has no gas left for. |
| ParallelBlock.SingleFallbackExact | crates/chain/src/executor.rs:455-461 | So a one-transaction fallback round equals continuing sequentially except exactly when the transaction is executable, fits an empty block and no longer fits the running one. |
| ParallelBlock.FallbackRejoins | crates/chain/src/executor.rs:455-461 | A fallback round that overdraws nothing is sequential execution continued, receipts included, whatever its hashes. |
| ParallelBlock.FittingRoundDecidesTheSame | crates/chain/src/executor.rs:455-461 | A fallback round whose declared gas fits what is left of the running block overdraws nothing. |
| BlockGuard.ParallelIsSequential | crates/chain/src/executor.rs:438-506 | Executing a block of distinct hashes round by round equals executing its rounds end to end in order, with every lawful EVM the rounds cannot tell from this one, if and only if every committed round is guarded and no fallback round overdraws; no credited balance may be 2^256 - 1. |
| BlockGuard.UnguardedBlockShows | crates/chain/src/executor.rs:438-506 | For any other block there is such an EVM with which the results differ: what one round gets wrong no later one puts right. |
| ParallelBlock.FaithfulBlockIsSequential | crates/chain/src/executor.rs:438-506 | For one given EVM and a block whose committed rounds read no account an earlier transaction of the round credits: round by round equals end to end if, and for distinct hashes only if, no committed round wakes a transaction and no fallback round overdraws. |
| ParallelBlock.ParallelCovers | crates/chain/src/executor.rs:482-502 | The parallel undo record covers the block on every input, fallbacks and fee credits included. |
| ParallelBlock.ParallelLedger | crates/chain/src/executor.rs:438-506 | On every input the parallel record is the ledger of exactly what its rounds executed, speculated effects for committed rounds and sequential ones for fallbacks, rebased receipts included. |
| Reorg.ComputeReorg | crates/chain/src/reorg.rs:42-99 | The two-cursor loop returns the specified walk. |
| Reorg.ReorgExactness | crates/chain/src/reorg.rs:42-99 | For held blocks there is one fork; within the guard the walk returns exactly the two disjoint chain segments above it, never genesis, every common chain block at or below it, and swapping the tips mirrors the result; beyond the guard it stops with exactly that many blocks. |
| Executor.ChainExecutor.ExecuteOne | crates/chain/src/executor.rs:284-376 | State, results, journal, height and tip are updated as one specified step, or nothing changes for an unknown block. |
| Executor.ChainExecutor.Undo | crates/chain/src/executor.rs:259-281 | Undoes the newest record, or changes nothing when there is none or it is another block's. |
| Executor.ChainExecutor.Reorganise | crates/chain/src/executor.rs:240-256 | Undoes then executes in order, stopping at the first error with the state reached. |
| Executor.ExecutionCovers | crates/chain/src/executor.rs:382-506 | Applying a block's undo record after executing it, either way, restores the accounts before it. |
| Executor.ExecutionLedger | crates/chain/src/executor.rs:543-581 | Either way the record is the ledger of what the block executed, and executed plus deferred is the deduplicated count. |
| Executor.ExecutedAsGiven | crates/chain/src/executor.rs:303-335 | Everything executed was given to the block, executes in canonical order, and executes once. |
| Executor.EitherWayIsTheSame | crates/chain/src/parallel.rs:10-25 | Executing a deduplicated block in rounds gives exactly what executing it one at a time gives, with every lawful EVM the rounds cannot tell from the node's, if and only if every round is guarded; no credited balance may be 2^256 - 1. |
| Executor.GuardedEitherWay | crates/chain/src/parallel.rs:10-25 | A block whose rounds are all guarded executes the same in rounds and one at a time. |
| Executor.FaithfulEitherWay | crates/chain/src/parallel.rs:10-25 | For one given EVM and a deduplicated block whose committed rounds read no account an earlier transaction of the round credits: the two are the same if and only if no committed round wakes a transaction and no fallback round overdraws. |
| Replays.StepFollows | crates/chain/src/executor.rs:354-376 | Executing one more block keeps the executor's state, results and journal those of replaying the longer chain, pruning included. |
| Replays.UndoFollows | crates/chain/src/executor.rs:259-281 | Undoing the newest recorded block gives the replay of the chain without it. |
| Replays.UndoAllFollows | crates/chain/src/executor.rs:247-249 | Undoing a chain's last blocks succeeds exactly when all of them are recorded; otherwise it stops with the journal empty. |
| Replays.TipIsRightWhileRecorded | crates/chain/src/executor.rs:274-278 | The tip is the replayed chain's exactly while a record is left or nothing is executed. |
| Replays.LastRecordSpent | crates/chain/src/executor.rs:274-278 | With a window of zero, an executor that has executed any two blocks and undoes the second holds the first one's accounts, results and height, and the genesis tip. |
| ReplayRefinement.AdvanceIsReplay | crates/chain/src/executor.rs:240-376 | From agreement with a fresh replay of the old tip's chain, a reorg succeeds and agrees with a fresh replay of the new tip's chain exactly when the walk met, every removed block is recorded, and the last record is not spent without executing anything short of genesis. |
| ReplayRefinement.RunIsReplay | crates/chain/src/executor.rs:240-376 | The same over any run of reorgs while blocks and bodies keep arriving: accounts, results, height and tip are those of replaying the current selected chain. |
| ReplayRefinement.RunIsFreshReplay | crates/chain/src/executor.rs:240-376 | After such a run the executor's core equals that of a new executor moved from genesis to the current tip. |
| ReplayRefinement.ShallowRunUnwinds | crates/chain/src/executor.rs:513-515 | If no reorg forks lower than the pruning window below the greatest height reached, every reorg of the run can be unwound: records older than the window are never needed. |
| ReplayRefinement.ShallowRunIsFreshReplay | crates/chain/src/executor.rs:513-515 | A new node's executor, after any run of reorgs that fork within the window, equals a fresh executor that ran the current selected chain from genesis. |
| ReplayRefinement.InStepIsStable | crates/chain/src/executor.rs:284-306 | Blocks and bodies arriving later change nothing for what has been executed. |
| Backends.VirtualTipUnwinds | crates/rpc/src/backend.rs:147-155 | Moving to the virtual selected parent can be unwound exactly when the walk met and the removed blocks are recorded: its having no child rules the remaining failure out. |
| Backends.Backend.Advance | crates/rpc/src/backend.rs:147-206 | Executor, index and pool after the call are the specified ones; on an error the pool is untouched and only removed blocks' entries are dropped. |
| Backends.Backend.CatchUp | crates/rpc/src/backend.rs:147-206 | Advancing succeeds with the state of a replay to the virtual selected parent exactly when the reorg can be unwound; executor and index then agree again. |
| Backends.Backend.AddBlock | crates/rpc/src/backend.rs:127-144 | A refused header changes nothing; an accepted one leaves the node in agreement at the new virtual selected parent exactly when the reorg can be unwound. |
| TxIndexes.AdvanceKeepsIndex | crates/rpc/src/backend.rs:171-188 | After a successful advance every entry names a currently executed chain block whose transaction at the index is the key; and every executed transaction has one, if none executed twice on the chain left. |
| TxIndexes.ReceiptIsOwn | crates/rpc/src/backend.rs:209-219 | A lookup answers exactly for indexed transactions, with the block of the current chain that executed it and the receipt of that execution: the transaction is one the block was given, the block's replay executes it at the indexed place and no other, and the receipt states its success, its logs and the prefix sum of gas up to it. |
| TxIndexes.ReplayLedgers | crates/chain/src/executor.rs:543-581 | Every result filed for a replayed chain is the ledger of what that block executes on the replay below it, with executed plus deferred equal to the deduplicated count. |
| Backends.Backend.Receipt | crates/rpc/src/backend.rs:209-219 | The lookup itself, with those guarantees. |
| DagSyncs.DagSync.OnMessage | crates/net/src/sync.rs:245-295 | Every message updates the machine and emits actions exactly as the transition function says. |
| DagSyncs.DagSync.OnBlocks | crates/net/src/sync.rs:435-478 | The batch loop, with its early return for a peer to be dropped. |
| DagSyncs.DagSync.Admit | crates/net/src/sync.rs:481-514 | Accepts, holds as an orphan and asks for the missing parents, or drops, as specified. |
| DagSyncs.DagSync.StoreOrphan | crates/net/src/sync.rs:516-540 | Oldest-first eviction, then enrolment under every missing parent. |
| DagSyncs.DagSync.ResolveOrphansOf | crates/net/src/sync.rs:546-573 | The worklist terminates and releases exactly what the specification releases. |
| DagSyncs.DagSync.RequestFrom | crates/net/src/sync.rs:608-622 | Marks and asks for the first 512 hashes not already in flight. |
| DagSyncs.DagSync.OnLocalBlock | crates/net/src/sync.rs:229-242 | Adds, announces and resolves, as specified. |
| DagSyncs.DagSync.OnTick | crates/net/src/sync.rs:306-375 | Drops timed-out requests and deals them out over the ready peers from a moving start, as specified. |
| DagSyncs.DagSync.OnDisconnect | crates/net/src/sync.rs:223-226 | The peer is gone, exactly the requests it did not owe remain, and every other peer and request is unchanged. |
| SyncRuns.OnDisconnectKeeps | crates/net/src/sync.rs:223-226 | Losing a peer keeps the whole invariant: every request left is owed by a peer still connected. |
| SyncInvariant.ResolveKeeps | crates/net/src/sync.rs:546-573 | Resolution ends with the waiting index exact and no orphan whose parents are all present. |
| SyncSafety.StoreOrphanKeeps | crates/net/src/sync.rs:516-540 | Eviction and enrolment keep queue and pool mirrored within the bound and the waiting index exact, and the newcomer is held. |
| SyncRuns.OnMessageKeeps | crates/net/src/sync.rs:245-295 | Every message keeps the invariant. |
| SyncRuns.RunKeepsInvariant | crates/net/src/sync.rs:223-622 | Over every run, given fresh mined hashes and no header that is its own parent: the eviction queue lists the orphans once each within the bound, the waiting index is exactly the orphan/missing-parent relation, no orphan is complete, and every request is owed by a connected peer for a block neither in the DAG nor orphaned. |
| SyncRuns.NewRunKeepsInvariant | crates/net/src/sync.rs:223-622 | So it does over every fair run of a new machine. |
| Delivery.DeliveryIndependence | crates/net/src/sync.rs:435-573 | Once every block of a DAG has been delivered or mined, with room in the pool for those missing, in any order, repeated, and among rejected blocks, inventories, connections and timeouts, no orphan is left and the node's DAG is that DAG; no block outside it passes the gate. |
| Delivery.BatchesInAnyOrder | crates/net/src/sync.rs:435-573 | Any split of the headers into batches from ready peers, in any order with any repetition, ends with exactly that DAG. |
| Delivery.TakenTowards | crates/ghostdag/src/dag.rs:224-249 | A header of the DAG being delivered is always taken once its parents are held. |
| Protocol.KnownStaysBounded | crates/net/src/peer.rs:141-147 | A peer's known-blocks set stays within its cap whatever is noted. |
| Codec.EncodingDecodes | crates/difficulty/src/compact.rs:76-103 | Every nonzero target encodes to a decodable value not above it, losing less than one part in 2^15 of that value. |
| Codec.EncodingIsGreatest | crates/difficulty/src/compact.rs:36-103 | That value is the greatest decodable one not above the target. |
| Codec.EncodingIsMonotone | crates/difficulty/src/compact.rs:76-103 | Larger targets never encode to smaller bits or decode to smaller values. |
| Codec.DecodableIsFixed | crates/difficulty/src/compact.rs:36-103 | Every decodable value is a fixed point of decoding, encoding and decoding again. |
| Asert.NextTargetInRange | crates/difficulty/src/asert.rs:81-146 | The retargeted bits decode to a target between 1 and the limit. |
| Asert.RetargetIsMonotone | crates/difficulty/src/asert.rs:81-146 | More elapsed time never makes the target harder and more blocks never make it easier, across half-life boundaries and through the encoding. |
| Asert.WholeHalflivesScaleExactly | crates/difficulty/src/asert.rs:81-146 | A drift of n whole half-lives within the clamp scales the anchor by exactly 2^n rounded down; no drift leaves the anchor, bounded and encoded. |
| Asert.IntermediatesFit | crates/difficulty/src/asert.rs:112-136 | Every intermediate product fits 289 bits. |
| Asert.FactorMono | crates/difficulty/src/asert.rs:104-111 | The cubic factor rises with the fraction and stays within one and two. |
| TxPools.TxPool.Add | crates/pool/src/lib.rs:159-241 | Admits or refuses with the specified error and leaves the specified pool, keeping it sound. |
| TxPools.TxPool.Remove | crates/pool/src/lib.rs:244-253 | Takes one transaction out of both indexes, dropping an emptied queue. |
| TxPools.TxPool.EvictWorst | crates/pool/src/lib.rs:311-324 | Removes the cheapest transaction, the newest of equals, whatever order the map is walked in. |
| TxPools.TxPool.Prune | crates/pool/src/lib.rs:256-266 | Exactly the transactions whose nonce is below their account's go. |
| TxPools.TxPool.BestTransactions | crates/pool/src/lib.rs:272-308 | The nested loops return the specified greedy merge. |
| Pool.IndexesAreInverse | crates/pool/src/lib.rs:159-324 | After any run of submissions, replacements, evictions and removals the hash index and the sender and nonce index are inverse and both limits hold. |
| Pool.AcceptedIsHeld | crates/pool/src/lib.rs:212-240 | An accepted submission is held afterwards exactly when it replaces, or there is room, or it outbids some held transaction. |
| Pool.AcceptanceCosts | crates/pool/src/lib.rs:212-240 | Beside the newcomer nothing changes but the transaction replaced, which pays less, or the one evicted, which is cheaper than all that remain. |
| Pool.RefusalChangesNothing | crates/pool/src/lib.rs:159-229 | A refusal changes neither index; only an underpriced replacement, which some held transaction of the same sender and nonce outbids, uses up an arrival number. |
| Pool.TipIsWhatMinersEarn | crates/pool/src/lib.rs:49-57 | The tip used for ordering is the fee per gas execution pays, except exactly for a transaction without a priority cap offering more than the base fee. |
| Selection.BestIsGreedyMerge | crates/pool/src/lib.rs:272-308 | The selection has min(limit, size) distinct held transactions, each sender's part is the start of its queue in nonce order, and every choice is beaten by no queue head then open. |
| Selection.FewerIsPrefix | crates/pool/src/lib.rs:272-308 | A smaller limit gives a prefix of what a larger one gives. |

## Left out

- EVM semantics, signatures, Keccak, Merkle roots and the EIP-1559 formula: parameters of the model.
- Message and header encodings, TCP framing, the peer-to-peer runtime, RPC rendering, storage and configuration: plumbing around the modelled state machines.
- Contract code and the block-hash table of `WorldState`: code is an append-only content-addressed map the undo journal never touches.
- `k_parameter.rs`: a design-time floating-point derivation.
- The mutable back door `dag_mut` of `DagSync`, and liveness of gossip under packet loss, which depends on timing outside the machine.
- A peer's `in_flight` set, which no handler reads.
- Overflow of the 16-bit anticone counter at k = 65535 and of the 64-bit arrival, height and block counters: natural numbers here.
- Overflow of 128-bit intermediates in ASERT's drift: integers here, so the results hold for inputs whose products fit.
- `submit_raw` and `pending_nonce` of the backend: decoding and a lookup around `TxPool.Add`.
- `tx_bytes`, the encoded-transaction map of the backend: written alongside blocks and never read by the modelled operations.
- Undo records and executed-block records are values returned by the execution loops rather than objects updated in place; aliasing of a record is not modelled.
- SpeculativeCommit.CommitRecordExact: says nothing of the accounts, which `RoundGuard.SpeculativeCommitIsSequential` decides.
- SpeculativeCommit.AwakeningDecides: for one given EVM, rounds in which a transaction reads what an earlier one credits are left to the exact condition over EVMs, since one EVM may do the same with what it reads.
- RoundGuard.SpeculativeCommitIsSequential: for beneficiaries short of the largest balance there is, past which a credit changes nothing.
- Reordering.LayeredBlockIsBaseSequence: for blocks the gas rule defers nothing of, since what it defers depends on the order.
- TxIndexes.AdvanceKeepsIndex: completeness needs that no transaction executed in two blocks of the chain being left, which account nonces ensure in the EVM and an abstract transaction function does not.
- ReplayRefinement.RunIsFreshReplay: for chains no longer than the guard on the reorg walk, 100 million blocks.
