/** Height, deferred rewards and finality (src/consensus.rs). */
module Consensus {
  import opened Types

  datatype PendingReward = PendingReward(validator: Address, reward: u64, blockHeight: nat)

  datatype ConsensusValue = ConsensusValue(
    currentHeight: nat,
    rewardedBlocks: set<BlockId>,
    pendingRewards: map<BlockId, PendingReward>,
    confirmationThreshold: nat)

  datatype QueueError = AlreadyQueued(id: BlockId) | AlreadyRewarded(id: BlockId)

  const INITIAL_CONSENSUS := ConsensusValue(0, {}, map[], 6)

  function SaturatingSub(a: nat, b: nat): nat {
    if a < b then 0 else a - b
  }

  predicate IsFinalized(c: ConsensusValue, blockHeight: nat) {
    SaturatingSub(c.currentHeight, blockHeight) >= c.confirmationThreshold
  }

  /** The queued blocks that have enough confirmations now. */
  function Finalized(c: ConsensusValue): set<BlockId> {
    set id | id in c.pendingRewards && IsFinalized(c, c.pendingRewards[id].blockHeight)
  }

  function QueueFailure(c: ConsensusValue, id: BlockId): Option<QueueError> {
    if id in c.pendingRewards then Some(AlreadyQueued(id))
    else if id in c.rewardedBlocks then Some(AlreadyRewarded(id))
    else None
  }

  function Queue(c: ConsensusValue, id: BlockId, p: PendingReward): ConsensusValue {
    if QueueFailure(c, id).Some? then c
    else c.(pendingRewards := c.pendingRewards[id := p])
  }

  /** Marking a block rewarded and taking it off the queue. */
  function Settle(c: ConsensusValue, id: BlockId): ConsensusValue {
    c.(rewardedBlocks := c.rewardedBlocks + {id}, pendingRewards := c.pendingRewards - {id})
  }

  /** The order lists each member of the set once. */
  ghost predicate Enumerates(order: seq<BlockId>, s: set<BlockId>) {
    && (forall id :: id in order <==> id in s)
    && (forall i, j :: 0 <= i < j < |order| ==> order[i] != order[j])
  }

  class ConsensusState {
    var currentHeight: nat
    var rewardedBlocks: set<BlockId>
    var pendingRewards: map<BlockId, PendingReward>
    var confirmationThreshold: nat

    ghost function State(): ConsensusValue
      reads this
    {
      ConsensusValue(currentHeight, rewardedBlocks, pendingRewards, confirmationThreshold)
    }

    constructor ()
      ensures State() == INITIAL_CONSENSUS
    {
      currentHeight, rewardedBlocks, pendingRewards, confirmationThreshold := 0, {}, map[], 6;
    }

    method IncrementHeight()
      modifies this`currentHeight
      ensures currentHeight == old(currentHeight) + 1
    {
      currentHeight := currentHeight + 1;
    }

    method QueuePendingReward(id: BlockId, validator: Address, reward: u64, blockHeight: nat)
      returns (r: Result<Unit, QueueError>)
      modifies this`pendingRewards
      ensures State() == Queue(old(State()), id, PendingReward(validator, reward, blockHeight))
      ensures r == (match QueueFailure(old(State()), id) case Some(e) => Err(e) case None => Ok(Unit))
    {
      if id in pendingRewards {
        return Err(AlreadyQueued(id));
      }
      if id in rewardedBlocks {
        return Err(AlreadyRewarded(id));
      }
      pendingRewards := pendingRewards[id := PendingReward(validator, reward, blockHeight)];
      return Ok(Unit);
    }

    /** The finalized entries in the arbitrary order of the hash map. */
    method FinalizedPendingRewards() returns (order: seq<BlockId>)
      ensures Enumerates(order, Finalized(State()))
    {
      order := [];
      var keys := pendingRewards.Keys;
      while keys != {}
        invariant keys <= pendingRewards.Keys
        invariant Enumerates(order, Finalized(State()) - keys)
        decreases |keys|
      {
        var id :| id in keys;
        if SaturatingSub(currentHeight, pendingRewards[id].blockHeight) >= confirmationThreshold {
          order := order + [id];
        }
        keys := keys - {id};
      }
    }

    method MarkBlockRewarded(id: BlockId)
      modifies this`rewardedBlocks
      ensures rewardedBlocks == old(rewardedBlocks) + {id}
    {
      rewardedBlocks := rewardedBlocks + {id};
    }

    method SettlePendingReward(id: BlockId)
      modifies this`pendingRewards
      ensures pendingRewards == old(pendingRewards) - {id}
    {
      pendingRewards := pendingRewards - {id};
    }
  }
}
