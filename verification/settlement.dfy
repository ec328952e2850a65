/** Deferred rewards over whole runs: finality, supply and the cap. */
module Settlement {
  import opened Types
  import opened Sums
  import opened Paths
  import opened Validation
  import opened Processor
  import opened Consensus
  import opened Runs
  import D = Dag
  import L = LedgerModel
  import M = MempoolModel
  import E = Emission

  const FINALITY: nat := 6

  /** The rewards of heights 1 .. height - 6. */
  function Minted(height: nat): nat {
    if height <= FINALITY then 0 else Minted(height - 1) + E.CalculateReward(height - FINALITY)
  }

  /** What the ledger held before the first call. */
  datatype Baseline = Baseline(supply: nat, total: int)

  /** Room for every reward the schedule can ever pay. */
  ghost predicate Roomy(b: Baseline) {
    b.supply + E.EMISSION_BOUND <= E.MAX_SUPPLY && b.total + E.EMISSION_BOUND <= U64_MAX
  }

  ghost predicate HeightsDistinct(pending: map<BlockId, PendingReward>) {
    forall a, b | a in pending && b in pending && pending[a].blockHeight == pending[b].blockHeight :: a == b
  }

  /** The last six heights each have one reward waiting, nothing else waits. */
  ghost predicate QueueExact(c: ConsensusValue) {
    && (forall id :: id in c.pendingRewards ==>
          var p := c.pendingRewards[id];
          && 1 <= p.blockHeight <= c.currentHeight < p.blockHeight + FINALITY
          && p.reward == E.CalculateReward(p.blockHeight)
          && p.validator != FEE_BURN_ADDRESS)
    && HeightsDistinct(c.pendingRewards)
    && (forall h: nat :: 1 <= h <= c.currentHeight < h + FINALITY ==> WaitsAt(c, h))
  }

  ghost predicate WaitsAt(c: ConsensusValue, h: nat) {
    exists id :: id in c.pendingRewards && c.pendingRewards[id].blockHeight == h
  }

  ghost predicate RewardsExact(txs: Transactions, c: ConsensusValue) {
    && c.confirmationThreshold == FINALITY
    && c.rewardedBlocks <= txs.Keys && c.pendingRewards.Keys <= txs.Keys
    && c.rewardedBlocks !! c.pendingRewards.Keys
    && c.currentHeight <= |txs|
    && QueueExact(c)
  }

  /** Supply and forfeited rewards together are the schedule so far, and nothing else made money. */
  ghost predicate SupplyExact(b: Baseline, l: L.LedgerState, height: nat, forfeited: nat) {
    && l.totalSupply + forfeited == b.supply + Minted(height)
    && L.Total(l) - b.total <= l.totalSupply - b.supply
    && L.BurnTracked(l)
  }

  ghost predicate Sound(b: Baseline, s: NodeState, forfeited: nat) {
    && RewardsExact(s.dag.transactions, s.consensus)
    && SupplyExact(b, s.ledger, s.consensus.currentHeight, forfeited)
  }

  // ---- the supply ----

  lemma {:induction false} MintedIsRewardSum(height: nat)
    ensures height > FINALITY ==> Minted(height) == E.RewardSum(height - FINALITY + 1) - E.RewardSum(1)
  {
    if height > FINALITY + 1 {
      MintedIsRewardSum(height - 1);
    } else if height == FINALITY + 1 {
      assert Minted(FINALITY) == 0;
      assert E.RewardSum(2) == E.RewardSum(1) + E.CalculateReward(1);
    }
  }

  lemma MintedIsBounded(height: nat)
    ensures Minted(height) <= E.EMISSION_BOUND
  {
    MintedIsRewardSum(height);
    if height > FINALITY {
      E.EmissionIsBounded(height - FINALITY + 1);
    }
  }

  /** Paying the sender's transfer never raises the balances and keeps burn and supply. */
  lemma RecordingKeepsSupply(b: Baseline, s: NodeState, tx: Transaction, forfeited: nat, env: Environment)
    requires SupplyExact(b, s.ledger, s.consensus.currentHeight, forfeited) && tx.sender != FEE_BURN_ADDRESS
    requires EarlyError(s, tx, env).None?
    ensures SupplyExact(b, Recorded(s, tx).ledger, s.consensus.currentHeight, forfeited)
    ensures Recorded(s, tx).ledger.totalSupply == s.ledger.totalSupply
  {
    L.TransferTotal(s.ledger, tx.sender, tx.receiver, tx.amount, tx.fee);
    L.OpKeepsBurn(s.ledger, L.Pay(tx.sender, tx.receiver, tx.amount, tx.fee));
  }

  /** A finalized reward passes every check: no cap, no overflow, no double payment. */
  lemma FinalRewardIsPayable(b: Baseline, l: L.LedgerState, c: ConsensusValue, id: BlockId, p: PendingReward, forfeited: nat)
    requires Roomy(b) && c.confirmationThreshold == FINALITY
    requires c.currentHeight == p.blockHeight + FINALITY && p.blockHeight >= 1
    requires SupplyExact(b, l, c.currentHeight - 1, forfeited)
    requires id !in c.rewardedBlocks && p.validator != FEE_BURN_ADDRESS
    ensures L.RewardError(l, p.validator, id, p.blockHeight, c).None?
    ensures SupplyExact(b, L.Reward(l, p.validator, id, p.blockHeight, c), c.currentHeight, forfeited)
  {
    MintedIsBounded(c.currentHeight);
    assert Minted(c.currentHeight) == Minted(c.currentHeight - 1) + E.CalculateReward(p.blockHeight);
    SumAtLeastTwo(l.balances, p.validator, FEE_BURN_ADDRESS);
    assert L.RewardError(l, p.validator, id, p.blockHeight, c).None?;
    L.RewardTotal(l, p.validator, id, p.blockHeight, c);
  }

  // ---- the queue ----

  /** The queue while the settlement loop runs: one height too many may wait. */
  ghost predicate Overfull(c: ConsensusValue) {
    && c.currentHeight >= 1
    && (forall id :: id in c.pendingRewards ==>
          var p := c.pendingRewards[id];
          && 1 <= p.blockHeight <= c.currentHeight <= p.blockHeight + FINALITY
          && p.reward == E.CalculateReward(p.blockHeight)
          && p.validator != FEE_BURN_ADDRESS)
    && HeightsDistinct(c.pendingRewards)
    && (forall h: nat :: 1 <= h <= c.currentHeight <= h + FINALITY ==> WaitsAt(c, h))
  }

  lemma QueueingFills(c: ConsensusValue, id: BlockId, miner: Address)
    requires QueueExact(c) && id !in c.pendingRewards && id !in c.rewardedBlocks && miner != FEE_BURN_ADDRESS
    ensures Overfull(Queue(Advanced(c), id, QueuedReward(Advanced(c), miner)))
  {
    var q := Queue(Advanced(c), id, QueuedReward(Advanced(c), miner));
    forall h: nat | 1 <= h <= q.currentHeight <= h + FINALITY ensures WaitsAt(q, h) {
      if h == q.currentHeight {
        assert q.pendingRewards[id].blockHeight == h;
      } else {
        assert WaitsAt(c, h);
        var j :| j in c.pendingRewards && c.pendingRewards[j].blockHeight == h;
        assert q.pendingRewards[j].blockHeight == h;
      }
    }
  }

  lemma ShortListing(order: seq<BlockId>, s: set<BlockId>)
    requires Enumerates(order, s)
    requires forall a, b :: a in s && b in s ==> a == b
    ensures |order| <= 1 && (order == [] <==> s == {})
  {
    SeqSetSize(order);
    assert s == set id | id in order;
    if order != [] {
      assert order[0] in order;
      assert s <= {order[0]};
      D.SubsetSizeLe(s, {order[0]});
    }
  }

  /** At most one reward is final at a time, the one six heights down. */
  lemma OneFinalReward(q: ConsensusValue, order: seq<BlockId>)
    requires Overfull(q) && q.confirmationThreshold == FINALITY && Enumerates(order, Finalized(q))
    ensures |order| <= 1
    ensures |order| == 1 <==> q.currentHeight > FINALITY
    ensures forall id :: id in order ==> id in q.pendingRewards && q.currentHeight == q.pendingRewards[id].blockHeight + FINALITY
  {
    assert forall id :: id in Finalized(q) ==> q.currentHeight == q.pendingRewards[id].blockHeight + FINALITY;
    ShortListing(order, Finalized(q));
    if q.currentHeight > FINALITY {
      assert WaitsAt(q, q.currentHeight - FINALITY);
      var id :| id in q.pendingRewards && q.pendingRewards[id].blockHeight == q.currentHeight - FINALITY;
      assert id in order;
    }
  }

  lemma SettlingEmpties(q: ConsensusValue, id: BlockId)
    requires Overfull(q) && id in q.pendingRewards && q.currentHeight == q.pendingRewards[id].blockHeight + FINALITY
    ensures QueueExact(Settle(q, id))
  {
    var c := Settle(q, id);
    forall h: nat | 1 <= h <= c.currentHeight < h + FINALITY ensures WaitsAt(c, h) {
      assert WaitsAt(q, h);
      var j :| j in q.pendingRewards && q.pendingRewards[j].blockHeight == h;
      assert j in c.pendingRewards && c.pendingRewards[j].blockHeight == h;
    }
  }

  /** Before the seventh height nothing is final and nothing waits too long. */
  lemma NothingToSettle(q: ConsensusValue)
    requires Overfull(q) && q.currentHeight <= FINALITY
    ensures QueueExact(q)
  {
  }

  /** The consensus state between queueing and settling, over the grown store. */
  ghost predicate Loaded(txs: Transactions, q: ConsensusValue) {
    && q.confirmationThreshold == FINALITY
    && q.rewardedBlocks <= txs.Keys && q.pendingRewards.Keys <= txs.Keys
    && q.rewardedBlocks !! q.pendingRewards.Keys
    && q.currentHeight <= |txs|
    && Overfull(q)
  }

  /** Queueing the reward of a transaction that was not stored before cannot fail. */
  lemma QueueStep(txs: Transactions, txs': Transactions, c: ConsensusValue, call: Call, miner: Address)
    requires RewardsExact(txs, c) && RewardId(call) !in txs && miner != FEE_BURN_ADDRESS
    requires txs'.Keys == txs.Keys + {RewardId(call)} && |txs'| == |txs| + 1
    ensures QueueFailure(Advanced(c), RewardId(call)).None?
    ensures Loaded(txs', Queued(c, call, miner)) && Queued(c, call, miner).currentHeight == c.currentHeight + 1
  {
    QueueingFills(c, RewardId(call), miner);
  }

  /** What the loop pays after the height has risen: the reward that became final, if any. */
  ghost predicate PaysTheFinalOne(rewards: seq<PendingReward>, height: nat) {
    if height <= FINALITY then rewards == []
    else |rewards| == 1 && rewards[0].blockHeight == height - FINALITY
  }

  lemma FinalOneIsMinted(rewards: seq<PendingReward>, height: nat)
    requires PaysTheFinalOne(rewards, height) && height >= 1
    ensures PaidTotal(rewards) == Minted(height) - Minted(height - 1)
  {
    if height > FINALITY {
      assert rewards[..0] == [];
    }
  }

  /** The loop pays exactly the reward that became final. */
  lemma SettlementLoop(b: Baseline, txs: Transactions, l: L.LedgerState, q: ConsensusValue, order: seq<BlockId>,
                       forfeited: nat, height: nat)
    requires Roomy(b) && Loaded(txs, q) && q.currentHeight == height + 1
    requires SupplyExact(b, l, height, forfeited)
    requires Enumerates(order, Finalized(q))
    ensures var (l', c') := SettleAll(l, q, order, q.pendingRewards);
            && c'.currentHeight == height + 1
            && RewardsExact(txs, c') && SupplyExact(b, l', height + 1, forfeited)
    ensures PaysTheFinalOne(PaidRewards(l, q, order, q.pendingRewards), height + 1)
  {
    OneFinalReward(q, order);
    if order == [] {
      NothingToSettle(q);
    } else {
      assert order[0] in order && order[..0] == [];
      var id := order[0];
      FinalRewardIsPayable(b, l, q, id, q.pendingRewards[id], forfeited);
      SettlingEmpties(q, id);
      assert SettleAll(l, q, [], q.pendingRewards) == (l, q);
      assert PaidRewards(l, q, order, q.pendingRewards) == [] + [q.pendingRewards[id]];
    }
  }

  lemma StoreGrows(txs: Transactions, tx: Transaction)
    requires tx.id !in txs
    ensures txs[tx.id := tx].Keys == txs.Keys + {tx.id} && |txs[tx.id := tx]| == |txs| + 1
  {
    var txs' := txs[tx.id := tx];
    assert txs'.Keys == txs.Keys + {tx.id};
    assert |txs'.Keys| == |txs.Keys| + 1;
  }

  /** Whether or not the mempool then refuses, and whether or not the disk fails:
    * a refusal forfeits what was settled since. */
  lemma FinishKeepsSound(b: Baseline, before: L.LedgerState, s: NodeState, tx: Transaction, saved: bool,
                         forfeited: nat, settled: nat, height: nat)
    requires Sound(b, s, forfeited)
    requires SupplyExact(b, before, height, forfeited)
    requires settled == Minted(s.consensus.currentHeight) - Minted(height)
    ensures var (s', r) := Finish(before, s, tx, saved);
            && Sound(b, s', if r.Err? && r.error.MempoolFailed? then forfeited + settled else forfeited)
            && (r.Err? ==> !r.error.QueueFailed?)
  {
  }

  /** Step 7 of a call that carries a miner. */
  lemma SettlingKeepsSound(b: Baseline, s: NodeState, recorded: NodeState, c: Call, miner: Address, order: seq<BlockId>,
                           forfeited: nat)
    requires Roomy(b) && Sound(b, s, forfeited) && miner != FEE_BURN_ADDRESS
    requires RewardId(c) == c.tx.id && c.tx.id !in s.dag.transactions
    requires recorded.dag.transactions == s.dag.transactions[c.tx.id := c.tx]
    requires SupplyExact(b, recorded.ledger, s.consensus.currentHeight, forfeited)
    requires Enumerates(order, Finalized(Queued(s.consensus, c, miner)))
    ensures QueueFailure(Advanced(s.consensus), c.tx.id).None?
    ensures var queued := Queued(s.consensus, c, miner);
            var settled := SettleAll(recorded.ledger, queued, order, queued.pendingRewards);
            && Sound(b, recorded.(ledger := settled.0, consensus := settled.1), forfeited)
            && settled.1.currentHeight == s.consensus.currentHeight + 1
            && PaysTheFinalOne(PaidRewards(recorded.ledger, queued, order, queued.pendingRewards), s.consensus.currentHeight + 1)
  {
    var queued := Queued(s.consensus, c, miner);
    StoreGrows(s.dag.transactions, c.tx);
    QueueStep(s.dag.transactions, recorded.dag.transactions, s.consensus, c, miner);
    SettlementLoop(b, recorded.dag.transactions, recorded.ledger, queued, order, forfeited, s.consensus.currentHeight);
  }

  /** Steps 7 to 9 of a call that carries a miner. */
  lemma PaidFinishKeepsSound(b: Baseline, s: NodeState, recorded: NodeState, c: Call, miner: Address, env: Environment,
                             forfeited: nat)
    requires Roomy(b) && Sound(b, s, forfeited) && miner != FEE_BURN_ADDRESS
    requires RewardId(c) == c.tx.id && c.tx.id !in s.dag.transactions
    requires recorded.dag.transactions == s.dag.transactions[c.tx.id := c.tx]
    requires SupplyExact(b, recorded.ledger, s.consensus.currentHeight, forfeited)
    requires Enumerates(env.order, Finalized(Queued(s.consensus, c, miner)))
    ensures QueueFailure(Advanced(s.consensus), c.tx.id).None?
    ensures var queued := Queued(s.consensus, c, miner);
            var settled := SettleAll(recorded.ledger, queued, env.order, queued.pendingRewards);
            var rewards := PaidRewards(recorded.ledger, queued, env.order, queued.pendingRewards);
            var (s', r) := Finish(s.ledger, recorded.(ledger := settled.0, consensus := settled.1), c.tx, env.saved);
            && PaysTheFinalOne(rewards, s.consensus.currentHeight + 1)
            && Sound(b, s', if r.Err? && r.error.MempoolFailed? then forfeited + PaidTotal(rewards) else forfeited)
            && (r.Err? ==> !r.error.QueueFailed?)
  {
    var queued := Queued(s.consensus, c, miner);
    var settled := SettleAll(recorded.ledger, queued, env.order, queued.pendingRewards);
    var rewards := PaidRewards(recorded.ledger, queued, env.order, queued.pendingRewards);
    SettlingKeepsSound(b, s, recorded, c, miner, env.order, forfeited);
    FinalOneIsMinted(rewards, s.consensus.currentHeight + 1);
    FinishKeepsSound(b, s.ledger, recorded.(ledger := settled.0, consensus := settled.1), c.tx, env.saved,
                     forfeited, PaidTotal(rewards), s.consensus.currentHeight);
  }

  /** What a write phase adds to the forfeited rewards. */
  ghost function Forfeits(s: NodeState, c: Call, env: Environment): nat
    requires OrderOk(s, c, env)
  {
    if Refused(s, c, env) then PaidTotal(WriteSettles(s, c, env)) else 0
  }

  lemma WriteKeepsSound(b: Baseline, s: NodeState, c: Call, env: Environment, forfeited: nat)
    requires Roomy(b) && Sound(b, s, forfeited) && OrderOk(s, c, env)
    requires RewardId(c) == c.tx.id && c.tx.sender != FEE_BURN_ADDRESS && c.miner != Some(FEE_BURN_ADDRESS)
    ensures Sound(b, WritePhase(s, c, env).0, forfeited + Forfeits(s, c, env))
    ensures var r := WritePhase(s, c, env).1; r.Err? ==> !r.error.QueueFailed?
  {
    if EarlyError(s, c.tx, env).None? {
      RecordingKeepsSupply(b, s, c.tx, forfeited, env);
      match c.miner
      case None =>
        StoreGrows(s.dag.transactions, c.tx);
        FinishKeepsSound(b, s.ledger, Recorded(s, c.tx), c.tx, env.saved, forfeited, 0, s.consensus.currentHeight);
      case Some(miner) =>
        PaidFinishKeepsSound(b, s, Recorded(s, c.tx), c, miner, env, forfeited);
    }
  }

  // ---- what becomes of a settled reward ----

  lemma WriteEarns(s: NodeState, c: Call, env: Environment)
    requires OrderOk(s, c, env)
    ensures WritePhase(s, c, env).0.ledger.totalSupply
         == s.ledger.totalSupply + if Refused(s, c, env) then 0 else PaidTotal(WriteSettles(s, c, env))
  {
    if EarlyError(s, c.tx, env).None? && c.miner.Some? && QueueFailure(Advanced(s.consensus), RewardId(c)).None? {
      var queued := Queued(s.consensus, c, c.miner.value);
      SettlingPaysExactly(Recorded(s, c.tx).ledger, queued, env.order, queued.pendingRewards);
    }
  }

  lemma WriteSettlesTheFinalOne(b: Baseline, s: NodeState, c: Call, env: Environment, forfeited: nat)
    requires Roomy(b) && Sound(b, s, forfeited) && OrderOk(s, c, env)
    requires RewardId(c) == c.tx.id && c.tx.sender != FEE_BURN_ADDRESS && c.miner != Some(FEE_BURN_ADDRESS)
    requires EarlyError(s, c.tx, env).None? && c.miner.Some?
    ensures PaysTheFinalOne(WriteSettles(s, c, env), s.consensus.currentHeight + 1)
    ensures WritePhase(s, c, env).0.consensus.currentHeight == s.consensus.currentHeight + 1
    ensures QueueFailure(Advanced(s.consensus), RewardId(c)).None?
    ensures Refused(s, c, env) <==> M.AddFailure(s.mempool, c.tx).Some?
    ensures Refused(s, c, env) ==> WritePhase(s, c, env).0.ledger == s.ledger
  {
    RecordingKeepsSupply(b, s, c.tx, forfeited, env);
    SettlingKeepsSound(b, s, Recorded(s, c.tx), c, c.miner.value, env.order, forfeited);
  }

  /** From the seventh height on every such write phase settles the reward six heights down, which never waits
    * again, and the reward stays paid exactly when the pool does not refuse the call. */
  lemma SettledRewardStaysPaid(b: Baseline, s: NodeState, c: Call, env: Environment, forfeited: nat)
    requires Roomy(b) && Sound(b, s, forfeited) && OrderOk(s, c, env)
    requires RewardId(c) == c.tx.id && c.tx.sender != FEE_BURN_ADDRESS && c.miner != Some(FEE_BURN_ADDRESS)
    requires EarlyError(s, c.tx, env).None? && c.miner.Some? && s.consensus.currentHeight >= FINALITY
    ensures var (s', due) := (WritePhase(s, c, env).0, s.consensus.currentHeight + 1 - FINALITY);
            && PaysTheFinalOne(WriteSettles(s, c, env), s.consensus.currentHeight + 1)
            && !WaitsAt(s'.consensus, due)
            && (M.AddFailure(s.mempool, c.tx).Some? ==> s'.ledger == s.ledger)
            && s'.ledger.totalSupply
               == s.ledger.totalSupply + if M.AddFailure(s.mempool, c.tx).None? then E.CalculateReward(due) else 0
  {
    WriteSettlesTheFinalOne(b, s, c, env, forfeited);
    WriteEarns(s, c, env);
    assert WriteSettles(s, c, env)[..0] == [];
    WriteKeepsSound(b, s, c, env, forfeited);
  }

  // ---- whole runs ----

  /** Nobody can sign for the burn address. */
  ghost predicate BurnKeyUnknown(v: Validator) {
    forall tx :: v.oracles.signatureOk(tx) ==> tx.sender != FEE_BURN_ADDRESS
  }

  /** Not mined by the burn address, and no block id but the transaction's own. */
  predicate OrdinaryCall(c: Call) {
    c.miner != Some(FEE_BURN_ADDRESS) && (c.blockId == None || c.blockId == Some(c.tx.id))
  }

  ghost predicate Ordinary(calls: seq<Call>) {
    forall c :: c in calls ==> OrdinaryCall(c) && c.tx.sender != FEE_BURN_ADDRESS
  }

  ghost predicate OrdinaryEvents(events: seq<Event>) {
    forall e :: e in events && e.Begin? ==> OrdinaryCall(e.call)
  }

  /** The node is sound, with exactly the logged rewards forfeited, and the supply has grown by those earned. */
  ghost predicate SoundRun(b: Baseline, m: Machine) {
    && Sound(b, m.node, PaidTotal(m.forfeited))
    && m.node.ledger.totalSupply == b.supply + PaidTotal(m.earned)
    && Ordinary(m.inFlight) && Pooled(m.node)
  }

  lemma StepKeepsSound(v: Validator, b: Baseline, m: Machine, e: Event)
    requires v.difficulty <= 255 && BurnKeyUnknown(v) && Roomy(b) && SoundRun(b, m)
    requires e.Begin? ==> OrdinaryCall(e.call)
    ensures SoundRun(b, Exec(v, m, e))
  {
    StepKeepsPooled(v, m, e);
    if Writes(m, e) {
      var c := m.inFlight[e.slot];
      assert c in m.inFlight;
      WriteKeepsSound(b, m.node, c, e.env, PaidTotal(m.forfeited));
      WriteEarns(m.node, c, e.env);
      PaidConcat(m.forfeited, WriteSettles(m.node, c, e.env), FEE_BURN_ADDRESS);
      PaidConcat(m.earned, WriteSettles(m.node, c, e.env), FEE_BURN_ADDRESS);
    }
  }

  /** Over every interleaved run that uses the transaction id as block id. */
  lemma {:induction false} RewardsStaySound(v: Validator, b: Baseline, m: Machine, events: seq<Event>)
    requires v.difficulty <= 255 && BurnKeyUnknown(v) && Roomy(b)
    requires SoundRun(b, m) && OrdinaryEvents(events)
    ensures var m' := ExecAll(v, m, events);
            && SoundRun(b, m')
            && |m'.node.consensus.pendingRewards| <= FINALITY
            && m'.node.ledger.totalSupply <= E.MAX_SUPPLY
  {
    if events != [] {
      var before := events[..|events| - 1];
      assert forall e :: e in before ==> e in events;
      RewardsStaySound(v, b, m, before);
      assert events[|events| - 1] in events;
      StepKeepsSound(v, b, ExecAll(v, m, before), events[|events| - 1]);
    }
    var c := ExecAll(v, m, events).node.consensus;
    AtMostSixWait(c.pendingRewards, c.currentHeight, FINALITY);
    MintedIsBounded(c.currentHeight);
  }

  /** After any such run every reward that became final was earned or forfeited. */
  lemma EarnedOrForfeited(v: Validator, b: Baseline, m: Machine, events: seq<Event>)
    requires v.difficulty <= 255 && BurnKeyUnknown(v) && Roomy(b)
    requires SoundRun(b, m) && OrdinaryEvents(events)
    ensures var m' := ExecAll(v, m, events);
            PaidTotal(m'.earned) + PaidTotal(m'.forfeited) == Minted(m'.node.consensus.currentHeight)
  {
    RewardsStaySound(v, b, m, events);
  }

  /** After any such run, no call that comes to its write phase can fail to queue its reward. */
  lemma QueueingNeverFails(v: Validator, b: Baseline, m: Machine, events: seq<Event>, c: Call, env: Environment)
    requires v.difficulty <= 255 && BurnKeyUnknown(v) && Roomy(b)
    requires SoundRun(b, m) && OrdinaryEvents(events)
    requires c in ExecAll(v, m, events).inFlight && OrderOk(ExecAll(v, m, events).node, c, env)
    ensures var r := WritePhase(ExecAll(v, m, events).node, c, env).1;
            r.Err? ==> !r.error.QueueFailed?
  {
    RewardsStaySound(v, b, m, events);
    var m' := ExecAll(v, m, events);
    WriteKeepsSound(b, m'.node, c, env, PaidTotal(m'.forfeited));
  }

  /** A sound ledger stays within 64 bits. */
  lemma SoundFits(b: Baseline, s: NodeState, forfeited: nat)
    requires Roomy(b) && Sound(b, s, forfeited)
    ensures L.Total(s.ledger) <= U64_MAX && L.BurnTracked(s.ledger)
  {
    MintedIsBounded(s.consensus.currentHeight);
  }

  /** After any such run, a call that passes the gate in the state then locked fails early only on a busy lock. */
  lemma GateHoldsInRuns(v: Validator, b: Baseline, m: Machine, events: seq<Event>, c: Call, env: Environment)
    requires v.difficulty <= 255 && BurnKeyUnknown(v) && Roomy(b)
    requires SoundRun(b, m) && OrdinaryEvents(events)
    requires var node := ExecAll(v, m, events).node;
             ValidateFull(v, c.tx, node.dag.transactions, node.ledger, c.minFee).None?
    ensures EarlyError(ExecAll(v, m, events).node, c.tx, env).None? <==> env.dagFree && env.ledgerFree && env.mempoolFree
  {
    RewardsStaySound(v, b, m, events);
    SoundFits(b, ExecAll(v, m, events).node, PaidTotal(ExecAll(v, m, events).forfeited));
    GateIsSufficient(v, ExecAll(v, m, events).node, c, env);
  }

  lemma WriteKeepsHeight(s: NodeState, c: Call, env: Environment)
    requires OrderOk(s, c, env)
    ensures s.consensus.currentHeight <= WritePhase(s, c, env).0.consensus.currentHeight
  {
    if EarlyError(s, c.tx, env).None? && c.miner.Some? {
      var queued := Queued(s.consensus, c, c.miner.value);
      SettlingKeepsHeight(Recorded(s, c.tx).ledger, queued, env.order, queued.pendingRewards);
    }
  }

  lemma {:induction false} SettlingKeepsHeight(l: L.LedgerState, c: ConsensusValue, order: seq<BlockId>,
                                               queue: map<BlockId, PendingReward>)
    requires forall id :: id in order ==> id in queue
    ensures SettleAll(l, c, order, queue).1.currentHeight == c.currentHeight
  {
    if order != [] {
      assert forall id :: id in order[..|order| - 1] ==> id in order;
      SettlingKeepsHeight(l, c, order[..|order| - 1], queue);
    }
  }

  lemma {:induction false} HeightNeverFalls(v: Validator, m: Machine, events: seq<Event>)
    requires v.difficulty <= 255 && Pooled(m.node)
    ensures m.node.consensus.currentHeight <= ExecAll(v, m, events).node.consensus.currentHeight
  {
    if events != [] {
      var m1, e := ExecAll(v, m, events[..|events| - 1]), events[|events| - 1];
      HeightNeverFalls(v, m, events[..|events| - 1]);
      RunsStayPooled(v, m, events[..|events| - 1]);
      StepKeepsPooled(v, m1, e);
      if Writes(m1, e) {
        WriteKeepsHeight(m1.node, m1.inFlight[e.slot], e.env);
      }
    }
  }

  /** Once a height is six below, its reward never waits again, whatever the process still does. */
  lemma NeverWaitsAgain(v: Validator, b: Baseline, m: Machine, events: seq<Event>, height: nat)
    requires v.difficulty <= 255 && BurnKeyUnknown(v) && Roomy(b)
    requires SoundRun(b, m) && OrdinaryEvents(events)
    requires height + FINALITY <= m.node.consensus.currentHeight
    ensures !WaitsAt(ExecAll(v, m, events).node.consensus, height)
  {
    RewardsStaySound(v, b, m, events);
    HeightNeverFalls(v, m, events);
  }

  lemma {:induction false} AtMostSixWait(pending: map<BlockId, PendingReward>, top: nat, width: nat)
    requires forall id :: id in pending ==> pending[id].blockHeight <= top < pending[id].blockHeight + width
    requires HeightsDistinct(pending)
    ensures |pending| <= width
    decreases width
  {
    if width > 0 {
      if id :| id in pending && pending[id].blockHeight + width == top + 1 {
        var rest := pending - {id};
        AtMostSixWait(rest, top, width - 1);
        assert rest.Keys == pending.Keys - {id};
        assert |rest.Keys| == |pending.Keys| - 1;
      } else {
        AtMostSixWait(pending, top, width - 1);
      }
    } else {
      assert pending == map[];
    }
  }

  /** Where a run starts: any ledger with room, nothing stored, nothing queued. */
  lemma FreshNodeIsSound(m: Machine)
    requires m.node.dag == D.EMPTY_DAG && m.node.consensus == INITIAL_CONSENSUS && L.BurnTracked(m.node.ledger)
    requires m.inFlight == [] && m.earned == [] && m.forfeited == [] && m.node.mempool.queue == []
    ensures SoundRun(Baseline(m.node.ledger.totalSupply, L.Total(m.node.ledger)), m)
  {
  }

  /** The genesis balances leave that room, whether or not they are counted as supply
    * (they are not on a first start, they are after a reload). */
  lemma GenesisLeavesRoom(l: L.LedgerState)
    requires l.balances == map[FOUNDER_ADDRESS := 100_000_000_000, FAUCET_ADDRESS := 10_000_000_000_000_000_000]
    requires l.totalSupply <= L.Total(l)
    ensures Roomy(Baseline(l.totalSupply, L.Total(l)))
  {
    var one: map<Address, int> := map[FOUNDER_ADDRESS := 100_000_000_000];
    SumUpdate(map[], FOUNDER_ADDRESS, 100_000_000_000);
    assert one == map[][FOUNDER_ADDRESS := 100_000_000_000];
    SumUpdate(one, FAUCET_ADDRESS, 10_000_000_000_000_000_000);
    assert l.balances == one[FAUCET_ADDRESS := 10_000_000_000_000_000_000];
  }
}
