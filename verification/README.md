# Verified model of the AETHER SEDC node's transaction state machine

This project models the part of the node that decides what is true: the transaction pipeline with its
many exits, the DAG and the indexes kept beside it, the ledger, the deferred block rewards, the mempool,
and the loops that rebuild the DAG and the balances from unordered storage.

How it is organised:

- `types`, `sums`, `bags`: shared values; sums over maps and multisets of sequences.
- `paths`: parent links, chains of links, insertion orders. `dag`: the `DAG` class, its invariant, the
  upward searches. `boundedsearch`: when the depth-bounded one is complete. `descendants`, `walk`, `score`:
  the traversals on top of it.
- `ledger`, `emission`, `consensus`, `mempool`, `validation`, `pow`: the parts a call touches.
- `processor`: one call through the pipeline. `runs`: a machine in which any number of calls may have
  validated before any of them writes. `settlement`: rewards and supply over such runs. `payees`: who is paid, from the
  calls written.
- `rebuild`, `replay`: starting from storage. `restart`: what of a run the disk brings back. `deadends`: which
  DAGs replay fully in every order. `repair`: the repaired ledger against the ledger of the run.
- `witnesses`: concrete runs, from a fresh node, of the failures listed below. `storage`, `ratelimiter`:
  independent pieces.

Every object the program updates in place is a class whose methods are proved to compute a function of
its old state (`Insert`, `Transfer`, `Queue`, `Add`, `WritePhase`, ...). The theorems are about these
functions, about whole runs of them, and about the results of the traversal methods.

Conventions:

- Ids and addresses are opaque 32-byte values, written as the big-endian number they spell. A transaction
  id is a hash, so no stored id is the all-zero genesis id; lemmas that need this say so.
- The hash and signature libraries are two function values of the validator. Where a theorem needs it, it
  assumes that nobody can sign for the burn address.
- Lock availability, hash-map iteration order, disk failure, the clock and random draws are parameters or
  arbitrary choices.
- A run is one process lifetime, from a node that starts afresh; `restart` and `repair` say what a start from
  its disk makes of it.
- Amounts, fees, balances, nonces and supply are u64 with the program's overflow checks. The height and
  `last nonce + 1` are unbounded numbers: both are proved to stay within the number of stored transactions.
- Scores are exact reals.

What the proofs found that the program's own comments do not say:

- The pipeline promises a rollback on any error (`src/transaction_processor.rs:9-10`, `:101`). The model
  follows the code: a failure after the DAG insertion leaves the transaction in the DAG.
  `Processor.RollbackIsExact` says exactly when the promise holds, in terms of the state before the call, and
  `Witnesses.FullPoolBreaksTheRollback` is a run that breaks it. After a mempool refusal the sender's next
  nonce is taken in the DAG but not in the ledger: until the process ends, no later call of that sender is
  accepted, unless it is the faucet (`Runs.RefusedSendersAreStuck`). A restart frees it again, because the
  refused transaction is not on disk (`Restart.RestartFreesSenders`).
- A reward settled in a call that the mempool then refuses is marked as paid and taken back: the process never
  pays it (`Settlement.NeverWaitsAgain`). `Settlement.SettledRewardStaysPaid` says when it stays paid,
  `Settlement.EarnedOrForfeited` accounts for every reward, and `Witnesses.RewardIsLost` is a run that loses
  one, for every pool of at least six.
- Storage is called the single source of truth from which a restart rebuilds the DAG
  (`src/node.rs:193-196`), but a transaction whose call failed after the DAG insertion is in the DAG and not
  on disk. A run survives a restart exactly when no call failed that late, and otherwise exactly
  the transactions with no such ancestor come back (`Restart.RunSurvivesRestart`,
  `Witnesses.RefusedRunIsLost`).
- A payment to the burn address destroys its amount, because the burn balance is written last
  (`LedgerModel.TransferConserves` says exactly when a transfer conserves money).
- A refused reward rollback may already have changed the balance (`LedgerModel.RollbackIsAtomic`): that is the
  only way in which transfers, rewards and rollbacks ever lose money (`LedgerModel.SupplyIsConserved`).
- The ledger replay retries payments so that order does not matter; because it does not look at nonces a
  later payment can still overtake an earlier one and starve it (`Replaying.OrderCanStarvePayments`). Every
  order gets through exactly when paying one transaction at a time has no dead end
  (`DeadEnds.OrdersMeetDeadEnds`); a DAG that can be paid in insertion order, and in which each sender's
  transactions descend from one another, has none (`DeadEnds.OrderlyMeansNoDeadEnd`).
- A ledger repair is described as recomputing every balance from the DAG. It replays the DAG that the disk brings
  back, and block rewards are not in it. Against the live ledger of any run every account lacks exactly the
  rewards it earned and the effect of the charged transactions that are not replayed; all balances are restored
  exactly when no reward was earned and those transactions cancel out (`Repair.RepairLosesExactly`). When no
  call failed late and the replay gets through, that is the case exactly up to height 6
  (`Repair.RepairForgetsExactlyTheRewards`). `Witnesses.RepairLosesAPayment` and `Witnesses.RepairLosesAReward`
  are runs that lose something.
- Rebuilding the DAG stores exactly the grounded transactions when no two of them conflict
  (`Rebuilding.RebuildIsExact`). It is independent of order exactly when no two transactions that some order
  could store contradict each other (`Rebuilding.OrderFreeExactly`), which is less
  (`Rebuilding.HopelessConflict`); `Rebuilding.OrderDecidesConflicts` is an order that matters.
- The ancestor search with a depth bound may miss ancestors within the bound. It misses none on every valid
  DAG exactly for bounds up to two (`BoundedSearch.CompleteExactlyUpToTwo`), and none on a given DAG once the
  bound reaches its size.
- `calculate_reward` documents a cap of 21,000,000 AETH and a minimum of one unit; the code pays at least one
  unit exactly below height 63 * 210,000 and nothing from there on (`Emission.RewardIsPositive`,
  `Emission.RewardRunsOut`). All heights together mint 42,000,000,002,310,000 units, which at 10 decimals is about
  4,200,000 AETH (`Emission.WholeEmission`), and the cap in the code is the constant `MAX_SUPPLY`. The model follows
  the code.
- The rate limiter calls itself a sliding window; it is a fixed one. For every limit and window of at least one it can admit one
  less than twice its limit within a window length (`RateLimiting.BoundIsReached`), so it slides exactly when
  the limit is at most one or the window is empty (`RateLimiting.SlidesExactly`). A refusal costs the caller
  nothing, except with a limit of zero and a window of more than a second, where it sets the clock for the seconds told to
  the next caller (`RateLimiting.NoTraceExactly`).
- A mempool of capacity 0 still holds one paying transaction (`MempoolModel.ZeroCapacityStillHoldsOne`).

## Model

| member | source | states |
|---|---|---|
| Dag.EveryDagIsValid | src/parent_selection.rs:371-486 | After any sequence of insertions from the empty DAG, refused ones included: the parent relation is acyclic, `children[p]` lists c exactly as often as p is a parent of c, tips are the childless transactions, non-root parent pairs and non-faucet (sender, nonce) pairs are unique |
| Dag.InsertKeepsValid | src/parent_selection.rs:421-486 | One insertion, accepted or refused, keeps that invariant |
| Dag.IndexesAreDetermined | src/parent_selection.rs:455-477 | The stored transactions alone fix the tips and, as multisets, all child lists |
| Dag.DAG.constructor | src/parent_selection.rs:358-364 | A new DAG is empty and satisfies the invariant |
| Dag.DAG.AddTransactionValidated | src/parent_selection.rs:421-486 | Either refuses with the first failing check and changes nothing, or stores the transaction and updates children and tips; keeps the invariant |
| Dag.DAG.CheckInsertion | src/parent_selection.rs:422-445 | Reports the first of duplicate id, missing parent 0, missing parent 1, used parent pair, sender conflict |
| Dag.DAG.LinkChild | src/parent_selection.rs:458-470 | Appends one child entry under a known parent, creating the list when absent |
| Dag.DAG.RebuildTips | src/parent_selection.rs:633-645 | Computes the childless transactions; on a valid DAG the incremental tips were already the same |
| Dag.DAG.IsReachableFrom | src/parent_selection.rs:543-564 | True exactly when zero or more parent links lead from one id to the other, on any store |
| Dag.DAG.GetAncestors | src/parent_selection.rs:521-540 | Finds exactly what the last-in-first-out search finds; every result ends a parent path of length 1 to k; for k at least the transaction count the result is exactly the strict ancestors |
| Dag.FoundAncestors | src/parent_selection.rs:521-540 | The same two facts about the search as a function |
| BoundedSearch.CompleteExactlyUpToTwo | src/parent_selection.rs:520-540 | The search finds every ancestor within k links of every transaction of every valid DAG if and only if k is at most 2 |
| BoundedSearch.DetourHidesTheFoot | src/parent_selection.rs:525-537 | For every k from 3 on, a valid DAG in which an ancestor within k links is not found |
| BoundedSearch.CompleteFromStoreSize | src/parent_selection.rs:521-540 | With a bound of at least the number of stored transactions nothing is missed |
| Paths.GrownIsAcyclic | src/parent_selection.rs:427-433 | A store that grew parents-first has no cycle |
| Paths.ChainShorterThanStore | src/parent_selection.rs:521-540 | A chain of links between stored transactions is shorter than the store |
| Paths.MutualReachabilityIsEquality | src/parent_selection.rs:542-564 | Two ids that reach each other are the same |
| Descendants.CountDescendantsRecursive | src/consensus.rs:418-437 | Adds one per child entry of every node it newly visits, all of them at or below the start |
| Descendants.CountChildren | src/consensus.rs:431-436 | The loop over one node's child entries: every child is visited, every entry counted |
| Descendants.CountConfirmations | src/consensus.rs:410-415 | Counts the child entries at and below the id: between D and 2 D for D strict descendants |
| Descendants.ConfirmationBounds | src/consensus.rs:409-437 | The bounds, by double counting child entries against parent slots |
| Descendants.CountsNeverFall | src/parent_selection.rs:149-178 | Neither cumulative weight nor confirmations fall when a transaction is inserted |
| ParentSelection.ParentSelectionAlgorithm.CountBelow | src/parent_selection.rs:155-173 | The stack search counts exactly one plus the number of strict descendants |
| ParentSelection.ParentSelectionAlgorithm.CalculateCumulativeWeight | src/parent_selection.rs:149-178 | Returns the cached weight or counts and caches; a cache that agrees with the DAG keeps agreeing |
| ParentSelection.StaleCacheIsSafe | src/parent_selection.rs:149-178 | When the DAG grows, cached weights stay positive and never exceed a fresh count, which is all the walk needs |
| ParentSelection.ParentSelectionAlgorithm.WeighChildren | src/parent_selection.rs:197-203 | Pairs every child with its cached weight; cached weights stay, new ones are fresh counts, whatever the cache held |
| ParentSelection.SortByWeight | src/parent_selection.rs:206 | A permutation in descending order of weight, equal weights in their old order |
| ParentSelection.ChooseWeighted | src/parent_selection.rs:212-218 | For every draw below the total some entry is chosen, without underflow, and it owns the draw |
| ParentSelection.OwnerIsUnique | src/parent_selection.rs:212-218 | A draw chooses one entry only |
| ParentSelection.ChosenInProportion | src/parent_selection.rs:208-218 | Each entry is chosen by exactly weight-many draws |
| ParentSelection.ParentSelectionAlgorithm.WalkStep | src/parent_selection.rs:196-218 | Moves to the child that owns the random number, reduced to the total weight, in the stably sorted list of the children; that total is positive, and new cache entries are fresh counts |
| ParentSelection.ParentSelectionAlgorithm.RandomWalk | src/parent_selection.rs:182-222 | Returns its path: it starts at genesis, the k-th step goes to the child that owns the k-th random number, and it stops only without children or at the depth. It ends at genesis or a transaction below it, at a stored one when any is stored, and at a childless one when it may take more steps than there are transactions |
| ParentSelection.ParentSelectionAlgorithm.FollowDraws | src/parent_selection.rs:187-221 | The loop of that walk |
| ParentSelection.WalkIsDetermined | src/parent_selection.rs:182-222 | The DAG, the cached weights and the random numbers leave only one such path |
| ParentSelection.StableSortIsUnique | src/parent_selection.rs:206 | There is one stable descending order of the children |
| ParentSelection.ParentSelectionAlgorithm.CheckDoubleSpendConflict | src/parent_selection.rs:226-266 | A conflict if and only if both are stored and have one sender, or two ancestors found within 10 have one sender |
| ParentSelection.ParentSelectionAlgorithm.SelectParents | src/parent_selection.rs:269-335 | Errors exactly when there are tips and all of them are older than the maximal age. Otherwise the first parent is the end of the first walk: stored when anything is, and childless when the walk may take more steps than there are transactions. The candidates are the ends of the next walks, all but the last rejected (pair used, same as the first, or in conflict with it); the second parent is the last one, then stored, below genesis and without conflict, or it is genesis after ten rejections. The pair is unused when the second is not genesis, when the first is childless, and always when the walk may take more steps than there are transactions |
| ParentSelection.ParentSelectionAlgorithm.SecondParent | src/parent_selection.rs:299-326 | The attempts: the first candidate that is not rejected, or genesis after ten |
| ParentSelection.ParentSelectionAlgorithm.Attempt | src/parent_selection.rs:303-321 | One walk and its verdict: rejected if and only if the pair is used, both are the same, or they conflict |
| LedgerModel.Ledger.TransferInternal | src/ledger.rs:271-349 | The new ledger and the first failing check, all or nothing |
| LedgerModel.TransferMovesMoney | src/ledger.rs:298-346 | Without a burn-address party every account moves by what it paid and received, self-transfers included |
| LedgerModel.TransferConserves | src/ledger.rs:300-346 | Exactly when an accepted transfer leaves the sum of balances unchanged |
| LedgerModel.PayingTheBurnAddressLosesTheAmount | src/ledger.rs:342-346 | A concrete payment to the burn address that destroys money |
| LedgerModel.TransferCannotOverflow | src/ledger.rs:287-340 | When all balances fit in 64 bits and burn equals burned fees, a covered transfer succeeds |
| LedgerModel.TransferExactly | src/ledger.rs:280-340 | A transfer is accepted if and only if the sender holds amount and fee and neither receiver, burn address nor burned fees would exceed 64 bits |
| LedgerModel.Ledger.ValidateAndCommitNonceInternal | src/ledger.rs:402-422 | Strict +1 for everybody but the faucet, whose stored nonce only moves forward |
| LedgerModel.Ledger.ApplyBlockReward | src/ledger.rs:476-573 | Checks double reward, finality, u64 and MAX_SUPPLY in that order; pays and raises supply only when all pass |
| LedgerModel.RewardExactly | src/ledger.rs:483-545 | A reward is paid if and only if its block was not rewarded, has enough confirmations, and neither the cap nor 64 bits are exceeded; a paid block is reported first, then missing confirmations |
| LedgerModel.Ledger.RollbackBlockReward | src/ledger.rs:587-639 | Writes the balance before it checks the supply |
| LedgerModel.RollbackIsAtomic | src/ledger.rs:598-626 | A refused rollback changes nothing exactly when the balance is too small or the supply covers the amount |
| LedgerModel.RollbackCanFailHalfway | src/ledger.rs:615-626 | A concrete refused rollback that has taken the balance |
| LedgerModel.RollbackUndoesReward | src/ledger.rs:587-639 | Rolling back a reward restores every balance and the supply |
| LedgerModel.OpConserves | src/ledger.rs:271-639 | One transfer, reward or rollback keeps the sum of balances minus supply exactly when it is not a half-done rollback |
| LedgerModel.SupplyIsConserved | src/ledger.rs:271-639 | Over any run of them from any ledger: burn balance equals burned fees, supply stays within MAX_SUPPLY, the sum of balances minus supply never rises, and it stays the same if and only if no rollback of the run is half done in the state it meets |
| LedgerModel.AccountedRunsConserve | src/ledger.rs:271-639 | When the supply accounts for all balances that is never the case, and the supply goes on accounting for them |
| LedgerModel.RollbackIsAtomicWhenAccounted | src/ledger.rs:587-639 | When the supply accounts for all balances, a refused rollback changes nothing |
| Emission.RewardNeverRises | src/ledger.rs:64-77 | The reward never rises with the height |
| Emission.RewardIsPositive | src/ledger.rs:55-77 | At least one unit is paid if and only if the height is below 63 * 210,000 |
| Emission.RewardRunsOut | src/ledger.rs:64-77 | The first height that pays nothing |
| Emission.FirstEraPaysInFull | src/ledger.rs:64-77 | Every height below 210,000 pays 100,000,000,000 |
| Emission.EveryEraHalves | src/ledger.rs:64-77 | Up to the last era, 210,000 heights later half is paid, rounded down, but at least one unit |
| Emission.RewardIsHalved | src/ledger.rs:64-77 | The reward is 10^11 divided by 2 to the power height / 210,000, at least one unit, and nothing from the 63rd halving on |
| Emission.SumByEras | src/ledger.rs:64-77 | The rewards of the first n heights: 210,000 times 10^11 / 2^k for each whole era k, and the share of the era begun |
| Emission.FirstEraTotal | src/ledger.rs:64-77 | The first era mints 210,000 * 10^11 |
| Emission.WholeEmission | src/ledger.rs:64-77 | All heights together mint 42,000,000,002,310,000 units |
| Emission.EmissionIsBounded | src/ledger.rs:38-77 | No number of heights mints more than that, and n heights mint that much if and only if n is at least 63 * 210,000 |
| Consensus.ConsensusState.QueuePendingReward | src/consensus.rs:198-233 | Refuses a block already queued or already rewarded, else queues it |
| Consensus.ConsensusState.FinalizedPendingRewards | src/consensus.rs:237-243 | Lists each finalized reward once, in any order |
| ProofOfWork.VerifyPow | src/transaction.rs:314-338 | For difficulty 0 to 255: true exactly when the hash, read big-endian, is below 2^(256-d) |
| ProofOfWork.ThresholdByBytes | src/transaction.rs:317-335 | Zero bytes and zero leading bits together are that threshold |
| ProofOfWork.MaskIsThreshold | src/transaction.rs:330-335 | The byte mask tests that the byte is below a power of two |
| ProofOfWork.HarderImpliesEasier | src/transaction.rs:311-338 | Passing a difficulty implies passing every smaller one |
| ProofOfWork.MineNonce | src/transaction.rs:342-376 | The nonce returned passes and no smaller one does |
| MempoolModel.Mempool.AddInternal | src/rpc.rs:557-586 | The new queue: fee check, eviction of the oldest lowest fee when full, append |
| MempoolModel.Mempool.FindLowestFee | src/rpc.rs:569 | The minimum fee in the queue, 0 when empty |
| MempoolModel.Mempool.FindFee | src/rpc.rs:573 | The first position with that fee |
| MempoolModel.Mempool.PopFront | src/rpc.rs:604-606 | First in, first out |
| MempoolModel.MempoolKeepsTheHighestFees | src/rpc.rs:557-586 | For capacity at least 1, after any offers the retained fees are the capacity-many largest qualifying ones |
| MempoolModel.TopKIsUnique | src/rpc.rs:566-582 | That description fits one multiset only |
| MempoolModel.SurvivorsKeepArrivalOrder | src/rpc.rs:571-584 | The queue is a subsequence of the offers |
| MempoolModel.ZeroCapacityStillHoldsOne | src/rpc.rs:566-584 | At capacity 0 the size limit holds exactly when the offered fee is 0 |
| Processor.TransactionProcessor.Process | src/transaction_processor.rs:110-315 | A rejected validation changes nothing; otherwise the state and the result are those of the write phase |
| Processor.TransactionProcessor.WriteLocked | src/transaction_processor.rs:129-314 | Steps 2 to 9 on the locked state, with every error exit |
| Processor.TransactionProcessor.QueueAndSettle | src/transaction_processor.rs:200-260 | Raises the height, queues the reward, settles the finalized ones in hash-map order; what then waits under the block id names this call's miner, the new height and its reward |
| Processor.TransactionProcessor.SettleLoop | src/transaction_processor.rs:223-253 | Pays, marks and dequeues each payable reward; a refused one stays queued |
| Processor.GateIsSufficient | src/transaction_processor.rs:123-191 | If the gate accepts in the state then locked, transfer, nonce commit and DAG insertion cannot fail |
| Processor.RollbackIsExact | src/transaction_processor.rs:101-314 | Under any interference, a call succeeds or leaves the whole node unchanged if and only if an early step fails, or the queue, the pool and the disk all accept; the state before the call tells which |
| Processor.SyncedPoolOnlyRefusesWhenFull | src/rpc.rs:1015-1028 | With the minimum fee synchronized, the pool refuses a validated call only when full of fees at least as high |
| Validation.PureExactly | src/validation.rs:137-161 | The pure checks pass if and only if the hash as a number is below 2^(256 - difficulty), the signature is valid, the first 32 key bytes spell the sender, and amount + fee fits in 64 bits; which error is reported when |
| Validation.GateExactly | src/validation.rs:137-252 | The whole gate passes if and only if, besides, the id is new, both parents are known, the pair is unused unless it is genesis twice, no stored transaction has sender and nonce unless it is the faucet's, the balance covers amount + fee, the nonce is the next one unless it is the faucet's, and the fee is at least the minimum; the pure checks are reported before those of the DAG, and those before the ledger's |
| Validation.InsertionExactly | src/parent_selection.rs:422-445 | The DAG takes a transaction if and only if these DAG conditions hold, and otherwise reports the first of: known id, unknown first parent, unknown second parent, used pair, used nonce |
| Validation.GateMatchesInsertion | src/validation.rs:163-197 | The gate's DAG check reports exactly the failure that the insertion would |
| Validation.LedgerReports | src/validation.rs:199-237 | The ledger check passes if and only if balance, nonce and fee are good enough, and otherwise reports the first of them that is not |
| Runs.RunsStayInStep | src/transaction_processor.rs:110-315 | Over all interleaved runs, error exits included: the DAG holds exactly the nonces 1..n of each non-faucet sender, each once, and n+1 exactly when the mempool refused the sender |
| Runs.EmptyNodeIsInStep | src/transaction_processor.rs:110-120 | A node with nothing stored starts in that lockstep |
| Runs.WriteKeepsLockstep | src/transaction_processor.rs:155-292 | One write phase keeps the lockstep |
| Runs.NextNonceClashes | src/parent_selection.rs:400-406 | A sender's next nonce is taken exactly when the mempool refused it before |
| Runs.RefusedSendersAreStuck | src/transaction_processor.rs:263-280 | After a mempool refusal the nonce and the stored transactions of a sender other than the faucet never change again while the process runs |
| Runs.RunsStayPooled | src/node.rs:911-928 | Over every run whatever waits in the pool is stored already |
| Runs.MiningInsertsNothing | src/node.rs:911-928 | So the miner's own insertion of what it takes from the pool is always refused as a duplicate |
| Runs.NoncesNeverDecrease | src/ledger.rs:402-422 | No call lowers any nonce, the faucet's included |
| Runs.NonceIsBoundedByStore | src/ledger.rs:414-420 | A nonce never exceeds the number of stored transactions |
| Runs.OnlyVettedTransactionsAreStored | src/transaction_processor.rs:121-127 | Whatever interleaves, every stored transaction has a hash below the numeric threshold, a valid signature, the key of its sender and a total that fits in 64 bits |
| Settlement.RewardsStaySound | src/transaction_processor.rs:200-260 | Over all runs that use the transaction id as block id: pending and rewarded ids are disjoint stored ids, exactly the last six heights wait, each with its own reward amount, supply plus the rewards settled in refused calls equals the start plus the rewards of heights 1..H-6, and supply has grown by exactly the rewards earned |
| Settlement.EarnedOrForfeited | src/transaction_processor.rs:222-281 | The rewards earned and the rewards forfeited in refused calls together are those of heights 1..H-6 |
| Settlement.SettledRewardStaysPaid | src/transaction_processor.rs:222-281 | From height 6 on a mined call settles the reward six heights down, which no longer waits, and supply keeps it if and only if the pool does not refuse the call |
| Settlement.NeverWaitsAgain | src/consensus.rs:198-248 | Over every later run of the process, a reward six heights down never waits again |
| Settlement.GateHoldsInRuns | src/transaction_processor.rs:121-191 | After any such run, a call that passes the gate in the state then locked can fail early only on a busy lock |
| Settlement.QueueingNeverFails | src/consensus.rs:198-216 | In such runs a write phase never fails to queue its reward |
| Settlement.WriteKeepsSound | src/transaction_processor.rs:130-314 | One write phase keeps all of that |
| Settlement.OneFinalReward | src/consensus.rs:237-281 | At most one reward is final at a time, the one six heights down |
| Settlement.FinalRewardIsPayable | src/ledger.rs:476-573 | The payment of a final reward passes every check: neither the cap nor an overflow is reachable |
| Settlement.MintedIsRewardSum | src/ledger.rs:64-77 | Minted supply is a segment of the halving series |
| Settlement.FreshNodeIsSound | src/consensus.rs:142-150 | A node with nothing stored and nothing queued starts in that invariant |
| Settlement.GenesisLeavesRoom | src/genesis.rs:32-35 | The genesis balances leave room for every reward, whether or not they are counted as supply |
| Payees.RewardsNameTheirMiners | src/transaction_processor.rs:200-253 | Over every run, whatever fails and whatever block ids are given: the height is the number of mined calls stored, every waiting reward names the miner, the height and the block id of the call that queued it, and every reward settled went to the miner of the call at its height |
| Payees.NoRewardTwiceOrLost | src/consensus.rs:198-281 | Over every such run no rewarded block waits again, no waiting reward is replaced or dropped, and a block is marked as rewarded for each reward settled |
| Payees.MinersEarnTheirRewards | src/transaction_processor.rs:200-281 | Over every run that uses the transaction id as block id, what an address has earned is the sum of the rewards of the heights it mined that are six below a mined call which the pool accepted |
| Payees.QueueIsTheLastSix | src/consensus.rs:198-248 | After such a run exactly the transactions of the last six mined calls wait |
| Payees.MinersArePaid | src/transaction_processor.rs:130-314 | After such a run from a fresh node every balance is its start, plus received minus sent over the charged transactions, plus the rewards of the calls it mined |
| Rebuilding.RebuildDag | src/node.rs:318-351 | The nested loops compute the pass-by-pass rebuild, terminate, and end with the right tips |
| Rebuilding.RebuildIsExact | src/node.rs:318-343 | For any list, in any order: the transactions stored are exactly those grounded in genesis if and only if no two grounded ones conflict |
| Rebuilding.OrphansAreTheUngrounded | src/node.rs:344-350 | In a conflict-free list the orphans are exactly the ungrounded transactions |
| Rebuilding.RebuildIsConfluent | src/node.rs:314-351 | Two lists of the same transactions without rivals give the same transactions, edges, tips and orphans |
| Rebuilding.OrderFreeExactly | src/node.rs:314-351 | Every permutation rebuilds the same DAG and orphans if and only if no two transactions that some order could store contradict each other |
| Rebuilding.CleanIsStored | src/node.rs:318-343 | Without such rivals exactly the transactions that some order could store are stored |
| Rebuilding.HopelessConflict | src/node.rs:318-343 | A transaction that contradicts its own parent: a conflict that no order can feel |
| Rebuilding.ConflictFreeHasNoRivals | src/node.rs:318-343 | Without conflicts between grounded transactions there are no rivals either |
| Rebuilding.OrphansLackAParent | src/node.rs:344-350 | For any list, the orphans are exactly its transactions with a parent that ended up missing |
| Rebuilding.RebuildRestoresTheDag | src/node.rs:309-351 | The transactions of a valid DAG, in any order, give that DAG back without orphans |
| Rebuilding.OrderDecidesConflicts | src/node.rs:332-340 | Two conflicting transactions whose order decides which one is stored |
| Restart.RunSurvivesRestart | src/transaction_processor.rs:261-306 | For any run and any order of reading the disk: the live DAG comes back if and only if no call failed after its DAG insertion; in general exactly the transactions on disk with all their ancestors come back |
| Restart.RestartKeepsSurvivors | src/node.rs:193-351 | From any part of a DAG on disk, what comes back and what is left as orphans |
| Restart.RestartIsCompleteExactly | src/node.rs:309-351 | The DAG comes back as it was if and only if the disk holds all of it |
| Restart.RestartFreesSenders | src/node.rs:309-351 | After a restart the next nonce of every sender but the faucet is free in the rebuilt DAG, also that of a refused sender |
| Replaying.ReplayLedger | src/node.rs:366-448 | The replay from genesis with the counters recomputed at the end; it terminates |
| Replaying.ReplayPass | src/node.rs:379-431 | One pass: not ready and short of balance wait, other failures are skipped for good |
| Replaying.ReplayTransfer | src/node.rs:389-395 | One transfer, raising the nonce to the maximum seen |
| Replaying.ReplayBooks | src/node.rs:374-448 | Whatever the order, each account ends at its start plus received minus sent, and nonces are the maximum seen |
| Replaying.ReplayConservesGenesis | src/node.rs:442-448 | Supply plus burned fees always equals the genesis sum |
| Replaying.BooksIgnoreOrder | src/node.rs:374-431 | Accounts depend on which transfers were made, not on their order |
| Replaying.ReplayIsOrderFree | src/node.rs:374-448 | Two replays that transfer the same transactions end alike |
| Replaying.FullReplayAddsUpTheDag | src/node.rs:374-448 | A replay that applies everything leaves genesis plus received minus amount and fee sent |
| Replaying.ReplayHandlesEverything | src/node.rs:374-438 | For every list, overflows included: each transaction ends transferred, waiting or skipped for good; whatever was transferred has parents that were transferred or skipped; whatever waits has a parent that was not transferred or a sender short of balance |
| Replaying.OrderCanStarvePayments | src/node.rs:407-414 | Three payments that replay fully in one order and lose two of them in another |
| DeadEnds.ReplayEndsStuck | src/node.rs:379-438 | When nothing can overflow, the passes make single payments until none of the remaining ones can be made |
| DeadEnds.StuckIsReached | src/node.rs:374-438 | Each such end point is where the replay ends for some order |
| DeadEnds.OrdersMeetDeadEnds | src/node.rs:374-438 | Every order transfers everything exactly when paying one at a time has no dead end |
| DeadEnds.OrderlyMeansNoDeadEnd | src/node.rs:374-438 | If the DAG can be paid in insertion order, and two transactions of one sender descend one from the other unless its start covers all it sends, every order transfers everything |
| Repair.RunsKeepAccounts | src/transaction_processor.rs:130-314 | Over all interleaved runs, refusals included, every account is its start plus received minus sent over the stored transactions that the pool did not refuse, plus the rewards it earned; nonces are the highest among them |
| Repair.RepairLosesExactly | src/node.rs:309-448 | For every run and any order of disk and hash map: live and repaired accounts differ by exactly the rewards earned and the charged transactions not replayed; all are the same if and only if no reward was earned and those transactions cancel out for every account; the recounted supply and burned fees make up the start |
| Repair.LostExists | src/node.rs:309-448 | Those transactions can always be listed |
| Repair.NothingIsLost | src/node.rs:309-351 | When no call failed late, nothing was refused and the disk brings every transaction back |
| Repair.RepairForgetsExactlyTheRewards | src/node.rs:359-448 | When no call failed late, a repair from disk that gets through restores every nonce, and every account but for the rewards it earned, which together are those of heights 1..H-6; it restores all balances if and only if H is at most 6 |
| Repair.RunsStayMirrored | src/transaction_processor.rs:155-191 | Without rewards and refusals, transferring the DAG in insertion order makes the live ledger again |
| Repair.RepairRestoresOrderlyRuns | src/node.rs:309-448 | When no reward was queued and no call failed late, an orderly DAG read back from disk repairs to the live balances, nonces and burned fees, whatever the iteration order |
| Witnesses.LenientExists | src/validation.rs:137-161 | For every difficulty there is a validator that everybody can satisfy |
| Witnesses.FirstStartIsReady | src/node.rs:565-566 | The node as it first starts, with a pool of 1000 and a minimum fee of 1, and a key that spells the founder's address, fit all runs below |
| Witnesses.QuietRunsExist | src/transaction_processor.rs:110-315 | From a fresh node, runs of any number of accepted mined calls that the pool has room and the owner has fees for |
| Witnesses.FullPoolBreaksTheRollback | src/transaction_processor.rs:263-280 | After as many accepted calls as the pool holds, a call that passes the gate, is refused because the pool is full, and is not rolled back |
| Witnesses.RewardIsLost | src/transaction_processor.rs:223-281 | For every pool of at least six, a run after which the reward of height capacity - 5 neither waits nor was kept |
| Witnesses.RefusedRunIsLost | src/node.rs:193-351 | A run whose DAG no restart brings back |
| Witnesses.RepairLosesAPayment | src/node.rs:309-448 | A run of one accepted call that missed the disk: the repair does not restore the balances, at height 1 |
| Witnesses.RepairLosesAReward | src/node.rs:359-448 | A run of seven calls, all on disk, whose full replay does not restore the balances |
| Scoring.ScoreRecursive | src/consensus.rs:321-356 | Computes the recursion as a function, visited set and total |
| Scoring.ComputeSubgraphScore | src/consensus.rs:292-318 | Computes the score of a tip, on any store |
| Scoring.ScoreIsADepthSum | src/consensus.rs:285-356 | The score is the sum, over the nodes the recursion visits, of weight times reputation times 1 + depth/2000, where the depth of a node is the length of a path of at most 1000 links to it from the tip: 0 for the tip, 1 for its first parent |
| Scoring.ScoreBounds | src/consensus.rs:289-356 | The score lies between B and 1.5 B, where B sums weight times reputation over the nodes the recursion visits: the tip and ancestors of it |
| Scoring.SmallStoreCountsAll | src/consensus.rs:321-356 | With at most 1001 stored transactions those are all the stored ancestors |
| Scoring.CountsAllExactly | src/consensus.rs:321-356 | That holds on every valid DAG of a size if and only if the size is at most 1001 |
| Scoring.LongLadderIsCut | src/consensus.rs:330-332 | A chain of 1002 whose first transaction does not count for its last |
| Scoring.SelectCanonicalSubgraph | src/consensus.rs:359-388 | The first of the tips examined whose score is positive and maximal among their scores; none if and only if no score is positive |
| RateLimiting.RateLimiter.CheckRequest | src/rpc.rs:50-64 | The buckets afterwards and the answer, with the seconds to wait; with a limit of at least one a refusal leaves the buckets as they were |
| RateLimiting.FewerThanTwicePerWindow | src/rpc.rs:50-64 | Any half-open interval of one window admits fewer than twice the limit for a key |
| RateLimiting.BoundIsReached | src/rpc.rs:50-64 | For every limit and window, a run in which one less than twice the limit is admitted within one window length |
| RateLimiting.SlidesExactly | src/rpc.rs:27-64 | Every window length of every run respects the limit if and only if the limit is at most one or the window is empty |
| RateLimiting.KeysAreIndependent | src/rpc.rs:50-64 | Calls on other keys change no answer |
| RateLimiting.AdmittedExactly | src/rpc.rs:50-64 | Over every run with a running clock, a call is let through if and only if the limit is at least one and either the current window of its key, opened by the first call after the window before, is over, or fewer calls than the limit were let through since its opening call |
| RateLimiting.WaitIsLeast | src/rpc.rs:57-61 | For a limit of at least one, the number of seconds in a refusal is the least after which a call is let through |
| RateLimiting.NoTraceExactly | src/rpc.rs:57-61 | Leaving a refused call out of a run changes no later answer; this holds for every run if and only if the limit is at least one or the window at most one second |
| StorageModel.Storage.Put | src/storage.rs:150-170 | Stores the transaction and indexes it under both parties |
| StorageModel.Storage.Delete | src/storage.rs:187-191 | Removes the transaction and leaves its index entries |
| StorageModel.Storage.BatchWrite | src/storage.rs:286-355 | All puts, then all deletes, then balances and index |
| StorageModel.Storage.GetTransactionsByAddress | src/storage.rs:208-229 | Exactly the stored transactions with that sender or receiver, each once |
| StorageModel.BatchIsSequential | src/storage.rs:286-355 | A batch equals its operations one by one exactly when no id is deleted and then put back for good |
| StorageModel.BatchIsSequentialWithoutRevival | src/storage.rs:286-355 | In particular when no put of an id follows its delete |
| StorageModel.IndexStaysTrue | src/storage.rs:150-191 | Over any puts, deletes and batches in which an id names one transaction, the index covers every stored transaction and never lies |

## Left out

- Networking, HTTP and JSON-RPC dispatch, wallet, GUI, configuration: input and output only.
- Signatures and hashing: function values; nothing about their strength is proved.
- `remove_transaction` of the DAG: nothing calls it, and it does not keep the tips exact.
- Sled itself: whether saving the ledger succeeded and whether the transaction reached the disk are arbitrary
  choices of the run; orphans kept on disk, and reading `dag.json` when Sled is empty, are not modelled.
- `last nonce + 1` at the largest u64: the model's sum is unbounded; `Runs.NonceIsBoundedByStore` shows it needs 2^64 - 1 stored transactions.
- The supply percentage that `apply_block_reward` logs, whose product can exceed u64: not part of the state.
- `rollback_block_reward` and `set_confirmation_threshold` of the consensus state, and the deprecated set of rewarded heights: the node calls neither of the first two; runs use the threshold 6.
- ProofOfWork.MineNonce: assumes that some u64 nonce passes; the program loops for ever otherwise.
- Replaying.ReplayIsOrderFree: assumes that the two replays transferred the same transactions, which does not hold for every pair of orders; `DeadEnds.OrdersMeetDeadEnds` says when every order transfers all.
- DeadEnds.OrderlyMeansNoDeadEnd: one direction only; a disorderly DAG may be free of dead ends too, and the exact condition is that of `DeadEnds.OrdersMeetDeadEnds`.
- Repair.RepairLosesExactly: assumes that no payment is received by the burn address.
- Settlement.QueueingNeverFails: holds within one process lifetime; a later process reads back the consensus state of the last successful call, in which a refused transaction may be submitted again after another one was queued.
- What a restarted process goes on to do: ledger, consensus state and pool as read back are not the start of a run here.
- StorageModel.Storage.GetTransactionsByAddress: the order of the results is not stated.
- Transfers and rewards that involve the burn address: excluded from the conservation theorems over runs; `LedgerModel.TransferConserves` covers single transfers.
- Staking, quorum voting, reputation decay, fee oracle, difficulty adjustment, and the exponential in the finality probability.
