/** Who is paid: the rewards of whole runs against the calls that were written. */
module Payees {
  import opened Types
  import opened Bags
  import opened Validation
  import opened Processor
  import opened Consensus
  import opened Runs
  import opened Settlement
  import D = Dag
  import L = LedgerModel
  import E = Emission
  import Repair
  import Replaying

  // ---- the calls of a run that were mined ----

  /** A call with a miner whose write stored its transaction, and whether the pool then refused it. */
  datatype Mined = Mined(call: Call, refused: bool)

  /** The event is a write that stores a transaction which was not stored before. */
  ghost predicate Stores(m: Machine, e: Event) {
    && Writes(m, e)
    && var id := m.inFlight[e.slot].tx.id;
       id !in m.node.dag.transactions && id in WritePhase(m.node, m.inFlight[e.slot], e.env).0.dag.transactions
  }

  /** The mined calls of a run, in the order of their writes: the h-th one has height h. */
  ghost function MinedCalls(v: Validator, m: Machine, events: seq<Event>): seq<Mined>
    requires v.difficulty <= 255
  {
    if events == [] then []
    else
      var m1, e := ExecAll(v, m, events[..|events| - 1]), events[|events| - 1];
      MinedCalls(v, m, events[..|events| - 1]) + MinedBy(m1, e)
  }

  ghost function MinedBy(m: Machine, e: Event): seq<Mined> {
    if Stores(m, e) && m.inFlight[e.slot].miner.Some? then
      [Mined(m.inFlight[e.slot], Refused(m.node, m.inFlight[e.slot], e.env))]
    else []
  }

  /** The reward is that of a mined call's height, for the miner of that call. */
  predicate PaysMiner(log: seq<Mined>, p: PendingReward) {
    && 1 <= p.blockHeight <= |log|
    && log[p.blockHeight - 1].call.miner == Some(p.validator)
    && p.reward == E.CalculateReward(p.blockHeight)
  }

  /** It waits under the block id that this call brought, or else under its transaction's. */
  predicate NamesMiner(log: seq<Mined>, id: BlockId, p: PendingReward) {
    PaysMiner(log, p)
    && var c := log[p.blockHeight - 1].call;
       if c.blockId == None then id == c.tx.id else c.blockId == Some(id)
  }

  ghost predicate AllNamed(log: seq<Mined>, c: ConsensusValue) {
    && c.currentHeight == |log|
    && forall id :: id in c.pendingRewards ==> NamesMiner(log, id, c.pendingRewards[id])
  }

  ghost predicate AllPay(log: seq<Mined>, rewards: seq<PendingReward>) {
    forall p :: p in rewards ==> PaysMiner(log, p)
  }

  // ---- every reward names its miner ----

  lemma LongerLogNames(log: seq<Mined>, entry: Mined, c: ConsensusValue, queued: ConsensusValue)
    requires AllNamed(log, c) && entry.call.miner.Some? && queued == Queued(c, entry.call, entry.call.miner.value)
    ensures AllNamed(log + [entry], queued)
  {
  }

  lemma WriteNames(log: seq<Mined>, s: NodeState, c: Call, env: Environment)
    requires AllNamed(log, s.consensus) && OrderOk(s, c, env) && EarlyError(s, c.tx, env).None? && c.miner.Some?
    ensures var log' := log + [Mined(c, Refused(s, c, env))];
            AllNamed(log', WritePhase(s, c, env).0.consensus) && AllPay(log', WriteSettles(s, c, env))
  {
    var entry := Mined(c, Refused(s, c, env));
    var queued := Queued(s.consensus, c, c.miner.value);
    LongerLogNames(log, entry, s.consensus, queued);
    if QueueFailure(Advanced(s.consensus), RewardId(c)).None? {
      SettlingTakesFromTheQueue(Recorded(s, c.tx).ledger, queued, env.order, queued.pendingRewards);
    }
  }

  lemma WriteWithoutMiner(s: NodeState, c: Call, env: Environment)
    requires OrderOk(s, c, env) && (EarlyError(s, c.tx, env).Some? || c.miner.None?)
    ensures WritePhase(s, c, env).0.consensus == s.consensus && WriteSettles(s, c, env) == []
  {
  }

  lemma StoresExactly(m: Machine, e: Event)
    requires Writes(m, e)
    ensures Stores(m, e) <==> EarlyError(m.node, m.inFlight[e.slot].tx, e.env).None?
  {
    RollbackIsExact(m.node, m.inFlight[e.slot], e.env);
    WriteOutcome(m.node, m.inFlight[e.slot], e.env);
  }

  lemma PayAfterMore(log: seq<Mined>, more: seq<Mined>, before: seq<PendingReward>, rewards: seq<PendingReward>)
    requires AllPay(log, before) && AllPay(log + more, rewards)
    ensures AllPay(log + more, before + rewards) && AllPay(log + more, before)
  {
  }

  lemma StepNames(v: Validator, m: Machine, e: Event, log: seq<Mined>)
    requires v.difficulty <= 255 && Pooled(m.node)
    requires AllNamed(log, m.node.consensus) && AllPay(log, m.earned) && AllPay(log, m.forfeited)
    ensures var (m', log') := (Exec(v, m, e), log + MinedBy(m, e));
            AllNamed(log', m'.node.consensus) && AllPay(log', m'.earned) && AllPay(log', m'.forfeited)
  {
    StepKeepsPooled(v, m, e);
    if Writes(m, e) {
      var c := m.inFlight[e.slot];
      StoresExactly(m, e);
      if Stores(m, e) && c.miner.Some? {
        WriteNames(log, m.node, c, e.env);
        PayAfterMore(log, MinedBy(m, e), m.earned, WriteSettles(m.node, c, e.env));
        PayAfterMore(log, MinedBy(m, e), m.forfeited, WriteSettles(m.node, c, e.env));
      } else {
        WriteWithoutMiner(m.node, c, e.env);
        assert log + [] == log && m.earned + [] == m.earned && m.forfeited + [] == m.forfeited;
      }
    } else {
      assert log + [] == log;
    }
  }

  /** No reward has been queued yet. */
  ghost predicate Unpaid(m: Machine) {
    m.node.consensus.currentHeight == 0 && m.node.consensus.pendingRewards == map[] && m.earned == [] && m.forfeited == []
  }

  /** Over every run, whatever fails and whatever block ids the calls name: the height counts the mined calls, every
    * waiting reward names the miner of the call that queued its id, and every reward ever settled went to the miner of the
    * call at its height. */
  lemma {:induction false} RewardsNameTheirMiners(v: Validator, m: Machine, events: seq<Event>)
    requires v.difficulty <= 255 && Pooled(m.node) && Unpaid(m)
    ensures var (m', log) := (ExecAll(v, m, events), MinedCalls(v, m, events));
            AllNamed(log, m'.node.consensus) && AllPay(log, m'.earned) && AllPay(log, m'.forfeited)
  {
    if events != [] {
      var before := events[..|events| - 1];
      RewardsNameTheirMiners(v, m, before);
      RunsStayPooled(v, m, before);
      StepNames(v, ExecAll(v, m, before), events[|events| - 1], MinedCalls(v, m, before));
    }
  }

  // ---- nothing waits twice, nothing is lost from the queue ----

  /** No rewarded block waits. */
  ghost predicate NoneTwice(c: ConsensusValue) {
    c.rewardedBlocks !! c.pendingRewards.Keys
  }

  /** A rewarded block stays rewarded, and a waiting reward still waits unchanged or has been settled. */
  ghost predicate KeepsRewards(c: ConsensusValue, c': ConsensusValue) {
    && c.rewardedBlocks <= c'.rewardedBlocks
    && forall id :: id in c.pendingRewards ==>
         id in c'.rewardedBlocks || (id in c'.pendingRewards && c'.pendingRewards[id] == c.pendingRewards[id])
  }

  lemma {:induction false} SettlingKeepsRewards(l: L.LedgerState, c: ConsensusValue, order: seq<BlockId>,
                                                queue: map<BlockId, PendingReward>)
    requires NoneTwice(c) && forall id :: id in order ==> id in queue
    ensures var c' := SettleAll(l, c, order, queue).1; NoneTwice(c') && KeepsRewards(c, c')
    ensures forall id :: id !in order ==> (id in SettleAll(l, c, order, queue).1.rewardedBlocks <==> id in c.rewardedBlocks)
  {
    if order != [] {
      assert forall id :: id in order[..|order| - 1] ==> id in order;
      SplitLast(order);
      SettlingKeepsRewards(l, c, order[..|order| - 1], queue);
    }
  }

  /** A block is marked as rewarded exactly when its reward is paid. */
  lemma {:induction false} SettlingMarksThePaid(l: L.LedgerState, c: ConsensusValue, order: seq<BlockId>,
                                                queue: map<BlockId, PendingReward>)
    requires NoneTwice(c) && forall id :: id in order ==> id in queue
    requires forall id :: id in order ==> id !in c.rewardedBlocks
    requires forall i, j :: 0 <= i < j < |order| ==> order[i] != order[j]
    ensures |SettleAll(l, c, order, queue).1.rewardedBlocks| == |c.rewardedBlocks| + |PaidRewards(l, c, order, queue)|
  {
    if order != [] {
      var init, last := order[..|order| - 1], order[|order| - 1];
      assert forall id :: id in init ==> id in order;
      assert last in order && last !in init;
      SettlingMarksThePaid(l, c, init, queue);
      SettlingKeepsRewards(l, c, init, queue);
    }
  }

  lemma WriteKeepsRewards(s: NodeState, c: Call, env: Environment)
    requires NoneTwice(s.consensus) && OrderOk(s, c, env)
    ensures NoneTwice(WritePhase(s, c, env).0.consensus) && KeepsRewards(s.consensus, WritePhase(s, c, env).0.consensus)
    ensures |WritePhase(s, c, env).0.consensus.rewardedBlocks| == |s.consensus.rewardedBlocks| + |WriteSettles(s, c, env)|
  {
    if EarlyError(s, c.tx, env).None? && c.miner.Some? && QueueFailure(Advanced(s.consensus), RewardId(c)).None? {
      var queued := Queued(s.consensus, c, c.miner.value);
      SettlingKeepsRewards(Recorded(s, c.tx).ledger, queued, env.order, queued.pendingRewards);
      SettlingMarksThePaid(Recorded(s, c.tx).ledger, queued, env.order, queued.pendingRewards);
    }
  }

  lemma KeepsThroughout(a: ConsensusValue, b: ConsensusValue, c: ConsensusValue)
    requires KeepsRewards(a, b) && KeepsRewards(b, c)
    ensures KeepsRewards(a, c)
  {
  }

  /** Every block marked as rewarded stands for one reward settled. */
  ghost predicate MarkedAsPaid(m: Machine) {
    |m.node.consensus.rewardedBlocks| == |m.earned| + |m.forfeited|
  }

  /** Over every run, whatever block ids the calls name: no block is ever queued once it is rewarded, no waiting
    * reward is replaced or dropped, and as many blocks are marked as rewarded as rewards were settled. */
  lemma {:induction false} NoRewardTwiceOrLost(v: Validator, m: Machine, events: seq<Event>)
    requires v.difficulty <= 255 && Pooled(m.node) && NoneTwice(m.node.consensus) && MarkedAsPaid(m)
    ensures var m' := ExecAll(v, m, events);
            NoneTwice(m'.node.consensus) && KeepsRewards(m.node.consensus, m'.node.consensus) && MarkedAsPaid(m')
  {
    if events != [] {
      var m1, e := ExecAll(v, m, events[..|events| - 1]), events[|events| - 1];
      NoRewardTwiceOrLost(v, m, events[..|events| - 1]);
      RunsStayPooled(v, m, events[..|events| - 1]);
      StepKeepsPooled(v, m1, e);
      if Writes(m1, e) {
        WriteKeepsRewards(m1.node, m1.inFlight[e.slot], e.env);
      }
      KeepsThroughout(m.node.consensus, m1.node.consensus, Exec(v, m1, e).node.consensus);
    }
  }

  // ---- every address earns the rewards of the calls it mined ----

  /** What the log says an address has earned: the write of the n-th mined call pays the miner of the call six before,
    * unless the pool refuses the n-th call. */
  function EarnedBy(log: seq<Mined>, a: Address): nat {
    if log == [] then 0
    else
      var n := |log|;
      EarnedBy(log[..n - 1], a)
      + if n > 6 && !log[n - 1].refused && log[n - 7].call.miner == Some(a) then E.CalculateReward(n - 6) else 0
  }

  /** The one reward that becomes final goes to the miner six calls before. */
  lemma FinalOnePays(log: seq<Mined>, rewards: seq<PendingReward>, a: Address)
    requires log != [] && PaysTheFinalOne(rewards, |log|) && AllPay(log, rewards)
    ensures PaidTo(rewards, a)
         == if |log| > 6 && log[|log| - 7].call.miner == Some(a) then E.CalculateReward(|log| - 6) else 0
  {
    if |log| > 6 {
      assert rewards[0] in rewards && rewards[..0] == [];
    }
  }

  lemma OneMoreEarned(log: seq<Mined>, entry: Mined, earned: seq<PendingReward>, rewards: seq<PendingReward>, a: Address)
    requires PaysTheFinalOne(rewards, |log| + 1) && AllPay(log + [entry], rewards)
    requires PaidTo(earned, a) == EarnedBy(log, a)
    ensures PaidTo(if entry.refused then earned else earned + rewards, a) == EarnedBy(log + [entry], a)
  {
    assert (log + [entry])[..|log|] == log;
    FinalOnePays(log + [entry], rewards, a);
    PaidConcat(earned, rewards, a);
  }

  /** What was earned is what the log says. */
  ghost predicate EarnedExactly(log: seq<Mined>, m: Machine) {
    forall a :: PaidTo(m.earned, a) == EarnedBy(log, a)
  }

  lemma StepEarns(v: Validator, b: Baseline, m: Machine, e: Event, log: seq<Mined>)
    requires v.difficulty <= 255 && BurnKeyUnknown(v) && Roomy(b) && SoundRun(b, m)
    requires AllNamed(log, m.node.consensus) && EarnedExactly(log, m)
    ensures EarnedExactly(log + MinedBy(m, e), Exec(v, m, e))
  {
    if Writes(m, e) {
      var c := m.inFlight[e.slot];
      assert c in m.inFlight;
      StoresExactly(m, e);
      if Stores(m, e) && c.miner.Some? {
        WriteNames(log, m.node, c, e.env);
        WriteSettlesTheFinalOne(b, m.node, c, e.env, PaidTotal(m.forfeited));
        forall a ensures PaidTo(Exec(v, m, e).earned, a) == EarnedBy(log + MinedBy(m, e), a) {
          OneMoreEarned(log, Mined(c, Refused(m.node, c, e.env)), m.earned, WriteSettles(m.node, c, e.env), a);
        }
      } else {
        WriteWithoutMiner(m.node, c, e.env);
        assert log + [] == log && m.earned + [] == m.earned;
      }
    } else {
      assert log + [] == log;
    }
  }

  /** Over every run that uses transaction ids as block ids, each address has earned exactly the rewards of the heights
    * at which it was the miner and which are six below a mined call that the pool did not refuse. */
  lemma {:induction false} MinersEarnTheirRewards(v: Validator, b: Baseline, m: Machine, events: seq<Event>)
    requires v.difficulty <= 255 && BurnKeyUnknown(v) && Roomy(b)
    requires SoundRun(b, m) && OrdinaryEvents(events) && Unpaid(m)
    ensures EarnedExactly(MinedCalls(v, m, events), ExecAll(v, m, events))
  {
    if events != [] {
      var before := events[..|events| - 1];
      assert forall e :: e in before ==> e in events;
      MinersEarnTheirRewards(v, b, m, before);
      RewardsNameTheirMiners(v, m, before);
      RewardsStaySound(v, b, m, before);
      StepEarns(v, b, ExecAll(v, m, before), events[|events| - 1], MinedCalls(v, m, before));
    }
  }

  /** One of the last six mined calls has this transaction id. */
  ghost predicate MinedLately(log: seq<Mined>, id: BlockId) {
    exists i :: |log| - 6 <= i < |log| && 0 <= i && log[i].call.tx.id == id
  }

  ghost predicate OrdinaryLog(log: seq<Mined>) {
    forall entry :: entry in log ==> OrdinaryCall(entry.call)
  }

  lemma {:induction false} LogIsOrdinary(v: Validator, b: Baseline, m: Machine, events: seq<Event>)
    requires v.difficulty <= 255 && BurnKeyUnknown(v) && Roomy(b)
    requires SoundRun(b, m) && OrdinaryEvents(events)
    ensures OrdinaryLog(MinedCalls(v, m, events))
  {
    if events != [] {
      var before, e := events[..|events| - 1], events[|events| - 1];
      assert forall e :: e in before ==> e in events;
      LogIsOrdinary(v, b, m, before);
      RewardsStaySound(v, b, m, before);
      var m1 := ExecAll(v, m, before);
      if Writes(m1, e) {
        assert m1.inFlight[e.slot] in m1.inFlight;
      }
    }
  }

  lemma WaitingIsRecent(log: seq<Mined>, c: ConsensusValue, id: BlockId)
    requires AllNamed(log, c) && QueueExact(c) && OrdinaryLog(log)
    ensures id in c.pendingRewards <==> MinedLately(log, id)
  {
    if id in c.pendingRewards {
      var i := c.pendingRewards[id].blockHeight - 1;
      assert log[i] in log && log[i].call.tx.id == id;
    }
    if MinedLately(log, id) {
      var i :| |log| - 6 <= i < |log| && 0 <= i && log[i].call.tx.id == id;
      assert WaitsAt(c, i + 1) && log[i] in log;
      var j :| j in c.pendingRewards && c.pendingRewards[j].blockHeight == i + 1;
      assert NamesMiner(log, j, c.pendingRewards[j]);
    }
  }

  /** The queue of such a run holds exactly the transactions of the last six mined calls. */
  lemma QueueIsTheLastSix(v: Validator, b: Baseline, m: Machine, events: seq<Event>, id: BlockId)
    requires v.difficulty <= 255 && BurnKeyUnknown(v) && Roomy(b)
    requires SoundRun(b, m) && OrdinaryEvents(events) && Unpaid(m)
    ensures id in ExecAll(v, m, events).node.consensus.pendingRewards <==> MinedLately(MinedCalls(v, m, events), id)
  {
    RewardsNameTheirMiners(v, m, events);
    RewardsStaySound(v, b, m, events);
    LogIsOrdinary(v, b, m, events);
    WaitingIsRecent(MinedCalls(v, m, events), ExecAll(v, m, events).node.consensus, id);
  }

  /** Every balance is its start, plus received minus sent over the charged transactions, plus the rewards of the calls
    * it mined. */
  ghost predicate PaidByTheLog(l0: L.LedgerState, m: Machine, log: seq<Mined>) {
    exists charged ::
      Repair.ListsCharged(m.node.dag.transactions, m.refused, charged) && BalancesByLog(l0, charged, m.node.ledger, log)
  }

  ghost predicate BalancesByLog(l0: L.LedgerState, charged: seq<Transaction>, l: L.LedgerState, log: seq<Mined>) {
    forall a :: L.Balance(l, a) == L.Balance(l0, a) + Replaying.Net(charged, a) + EarnedBy(log, a)
  }

  lemma AccountsByLog(l0: L.LedgerState, m: Machine, log: seq<Mined>)
    requires Repair.Balanced(l0, m) && EarnedExactly(log, m)
    ensures PaidByTheLog(l0, m, log)
  {
    var charged: seq<Transaction> :| Repair.ListsCharged(m.node.dag.transactions, m.refused, charged)
                                     && Repair.Accounts(l0, charged, m.node.ledger, m.earned);
    assert BalancesByLog(l0, charged, m.node.ledger, log);
  }

  /** That is so for every run from a fresh node. */
  lemma MinersArePaid(v: Validator, m: Machine, events: seq<Event>)
    requires v.difficulty <= 255 && BurnKeyUnknown(v) && Repair.Fresh(m)
    requires Roomy(Baseline(m.node.ledger.totalSupply, L.Total(m.node.ledger)))
    requires OrdinaryEvents(events) && Repair.PlainEvents(events)
    ensures PaidByTheLog(m.node.ledger, ExecAll(v, m, events), MinedCalls(v, m, events))
  {
    FreshNodeIsSound(m);
    MinersEarnTheirRewards(v, Baseline(m.node.ledger.totalSupply, L.Total(m.node.ledger)), m, events);
    Repair.FreshIsKept(v, m);
    Repair.RunsKeepAccounts(v, m.node.ledger, m, events);
    AccountsByLog(m.node.ledger, ExecAll(v, m, events), MinedCalls(v, m, events));
  }
}
