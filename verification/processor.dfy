/** The transaction pipeline (src/transaction_processor.rs). */
module Processor {
  import opened Types
  import opened Validation
  import opened Consensus
  import D = Dag
  import L = LedgerModel
  import M = MempoolModel
  import E = Emission

  datatype NodeState = NodeState(
    dag: D.DagState,
    ledger: L.LedgerState,
    consensus: ConsensusValue,
    mempool: M.MempoolState)

  datatype Call = Call(tx: Transaction, minFee: u64, miner: Option<Address>, blockId: Option<BlockId>)

  /** What the runtime decides: which locks are free, the hash map's order, the disk. */
  datatype Environment = Environment(
    dagFree: bool, ledgerFree: bool, mempoolFree: bool,
    order: seq<BlockId>,
    saved: bool)

  datatype Lock = DagLock | LedgerLock | MempoolLock

  datatype ProcessingError =
    | ValidationFailed(cause: ValidationError)
    | LockBusy(lock: Lock)
    | TransferFailed(reason: L.LedgerError)
    | NonceFailed(reason: L.LedgerError)
    | DagFailed(failure: D.DagError)
    | QueueFailed(refusal: QueueError)
    | MempoolFailed(overflow: M.MempoolError)
    | PersistenceFailed

  // ---- steps 2 to 6: locks, transfer, nonce, DAG ----

  function Transferred(l: L.LedgerState, tx: Transaction): L.LedgerState {
    L.Transfer(l, tx.sender, tx.receiver, tx.amount, tx.fee)
  }

  /** The first step up to the DAG insertion that fails. */
  function EarlyError(s: NodeState, tx: Transaction, env: Environment): Option<ProcessingError> {
    var paid := L.TransferError(s.ledger, tx.sender, tx.receiver, tx.amount, tx.fee);
    var nonce := L.NonceError(Transferred(s.ledger, tx), tx.sender, tx.accountNonce);
    var inserted := D.InsertError(s.dag.transactions, tx);
    if !env.dagFree then Some(LockBusy(DagLock))
    else if !env.ledgerFree then Some(LockBusy(LedgerLock))
    else if !env.mempoolFree then Some(LockBusy(MempoolLock))
    else if paid.Some? then Some(TransferFailed(paid.value))
    else if nonce.Some? then Some(NonceFailed(nonce.value))
    else if inserted.Some? then Some(DagFailed(inserted.value))
    else None
  }

  function Recorded(s: NodeState, tx: Transaction): NodeState {
    s.(ledger := L.CommitNonce(Transferred(s.ledger, tx), tx.sender, tx.accountNonce),
       dag := D.Insert(s.dag, tx))
  }

  // ---- step 7: rewards ----

  function RewardId(c: Call): BlockId {
    if c.blockId.Some? then c.blockId.value else c.tx.id
  }

  function Advanced(c: ConsensusValue): ConsensusValue {
    c.(currentHeight := c.currentHeight + 1)
  }

  function QueuedReward(c: ConsensusValue, miner: Address): PendingReward {
    PendingReward(miner, E.CalculateReward(c.currentHeight), c.currentHeight)
  }

  /** One round of the settlement loop; a refused reward stays queued. */
  function SettleOne(l: L.LedgerState, c: ConsensusValue, id: BlockId, p: PendingReward): (L.LedgerState, ConsensusValue) {
    if L.RewardError(l, p.validator, id, p.blockHeight, c).Some? then (l, c)
    else (L.Reward(l, p.validator, id, p.blockHeight, c), Settle(c, id))
  }

  function SettleAll(l: L.LedgerState, c: ConsensusValue, order: seq<BlockId>, queue: map<BlockId, PendingReward>):
    (L.LedgerState, ConsensusValue)
    requires forall id :: id in order ==> id in queue
  {
    if order == [] then (l, c)
    else
      var last := order[|order| - 1];
      assert forall id :: id in order[..|order| - 1] ==> id in order;
      var before := SettleAll(l, c, order[..|order| - 1], queue);
      SettleOne(before.0, before.1, last, queue[last])
  }

  /** The rewards that the settlement loop pays, in its order. */
  function PaidRewards(l: L.LedgerState, c: ConsensusValue, order: seq<BlockId>, queue: map<BlockId,
                       PendingReward>): seq<PendingReward>
    requires forall id :: id in order ==> id in queue
  {
    if order == [] then []
    else
      var last := order[|order| - 1];
      assert forall id :: id in order[..|order| - 1] ==> id in order;
      var before := SettleAll(l, c, order[..|order| - 1], queue);
      var p := queue[last];
      PaidRewards(l, c, order[..|order| - 1], queue)
      + if L.RewardError(before.0, p.validator, last, p.blockHeight, before.1).None? then [p] else []
  }

  /** What the rewards come to, together and for one address. */
  function PaidTotal(rewards: seq<PendingReward>): nat {
    if rewards == [] then 0
    else PaidTotal(rewards[..|rewards| - 1]) + E.CalculateReward(rewards[|rewards| - 1].blockHeight)
  }

  function PaidTo(rewards: seq<PendingReward>, a: Address): nat {
    if rewards == [] then 0
    else
      var last := rewards[|rewards| - 1];
      PaidTo(rewards[..|rewards| - 1], a) + if last.validator == a then E.CalculateReward(last.blockHeight) else 0
  }

  lemma {:induction false} PaidConcat(xs: seq<PendingReward>, ys: seq<PendingReward>, a: Address)
    ensures PaidTotal(xs + ys) == PaidTotal(xs) + PaidTotal(ys)
    ensures PaidTo(xs + ys, a) == PaidTo(xs, a) + PaidTo(ys, a)
  {
    if ys == [] {
      assert xs + ys == xs;
    } else {
      assert (xs + ys)[..|xs + ys| - 1] == xs + ys[..|ys| - 1];
      PaidConcat(xs, ys[..|ys| - 1], a);
    }
  }

  /** The loop pays each of these rewards to its validator, raises the supply by all of them, and does nothing else. */
  ghost predicate PaysExactly(l: L.LedgerState, l': L.LedgerState, rewards: seq<PendingReward>) {
    && (forall a :: L.Balance(l', a) == L.Balance(l, a) + PaidTo(rewards, a))
    && l'.totalSupply == l.totalSupply + PaidTotal(rewards)
    && L.Total(l') == L.Total(l) + PaidTotal(rewards)
    && l'.nonces == l.nonces && l'.totalFeesBurned == l.totalFeesBurned
  }

  lemma PaysOne(l: L.LedgerState, before: L.LedgerState, c: ConsensusValue, id: BlockId, p: PendingReward,
                rewards: seq<PendingReward>)
    requires PaysExactly(l, before, rewards)
    requires L.RewardError(before, p.validator, id, p.blockHeight, c).None?
    ensures PaysExactly(l, L.Reward(before, p.validator, id, p.blockHeight, c), rewards + [p])
  {
    L.RewardTotal(before, p.validator, id, p.blockHeight, c);
    assert (rewards + [p])[..|rewards|] == rewards;
  }

  lemma {:induction false} SettlingPaysExactly(l: L.LedgerState, c: ConsensusValue, order: seq<BlockId>,
                                               queue: map<BlockId, PendingReward>)
    requires forall id :: id in order ==> id in queue
    ensures PaysExactly(l, SettleAll(l, c, order, queue).0, PaidRewards(l, c, order, queue))
  {
    if order != [] {
      var init, last := order[..|order| - 1], order[|order| - 1];
      assert forall id :: id in init ==> id in order;
      SettlingPaysExactly(l, c, init, queue);
      var before := SettleAll(l, c, init, queue);
      var p := queue[last];
      if L.RewardError(before.0, p.validator, last, p.blockHeight, before.1).None? {
        PaysOne(l, before.0, before.1, last, p, PaidRewards(l, c, init, queue));
      } else {
        assert PaidRewards(l, c, init, queue) + [] == PaidRewards(l, c, init, queue);
      }
    }
  }

  /** The loop pays only what was queued, and leaves the rest as it was. */
  lemma {:induction false} SettlingTakesFromTheQueue(l: L.LedgerState, c: ConsensusValue, order: seq<BlockId>,
                                                     queue: map<BlockId, PendingReward>)
    requires forall id :: id in order ==> id in queue
    ensures forall p :: p in PaidRewards(l, c, order, queue) ==> exists id :: id in order && queue[id] == p
    ensures var c' := SettleAll(l, c, order, queue).1;
            && c'.currentHeight == c.currentHeight
            && forall id :: id in c'.pendingRewards ==> id in c.pendingRewards && c'.pendingRewards[id] == c.pendingRewards[id]
  {
    if order != [] {
      var init, last := order[..|order| - 1], order[|order| - 1];
      assert forall id :: id in init ==> id in order;
      SettlingTakesFromTheQueue(l, c, init, queue);
      assert last in order && queue[last] == queue[order[|order| - 1]];
    }
  }

  /** The consensus state in which the settlement loop starts. */
  function Queued(c: ConsensusValue, call: Call, miner: Address): ConsensusValue {
    Queue(Advanced(c), RewardId(call), QueuedReward(Advanced(c), miner))
  }

  /** Under this id no other reward waits. */
  predicate WaitsAs(c: ConsensusValue, id: BlockId, p: PendingReward) {
    id in c.pendingRewards ==> c.pendingRewards[id] == p
  }

  /** What this call queued names its miner as long as it waits. */
  lemma StillQueued(l: L.LedgerState, start: ConsensusValue, c: Call, miner: Address, order: seq<BlockId>)
    requires QueueFailure(Advanced(start), RewardId(c)).None?
    requires forall id :: id in order ==> id in Queued(start, c, miner).pendingRewards
    ensures var (queued, height) := (Queued(start, c, miner), start.currentHeight + 1);
            WaitsAs(SettleAll(l, queued, order, queued.pendingRewards).1, RewardId(c),
                    PendingReward(miner, E.CalculateReward(height), height))
  {
    var queued := Queued(start, c, miner);
    SettlingTakesFromTheQueue(l, queued, order, queued.pendingRewards);
  }

  /** The environment lists the finalized rewards when the loop is reached. */
  ghost predicate OrderOk(s: NodeState, c: Call, env: Environment) {
    c.miner.Some? ==> Enumerates(env.order, Finalized(Queued(s.consensus, c, c.miner.value)))
  }

  // ---- steps 8 and 9: mempool and disk ----

  /** A mempool refusal puts the ledger back, and only the ledger. */
  function Finish(before: L.LedgerState, s: NodeState, tx: Transaction, saved: bool): (NodeState, Result<Unit,
                  ProcessingError>) {
    var refusal := M.AddFailure(s.mempool, tx);
    if refusal.Some? then (s.(ledger := before), Err(MempoolFailed(refusal.value)))
    else (s.(mempool := M.Add(s.mempool, tx)), if saved then Ok(Unit) else Err(PersistenceFailed))
  }

  /** Steps 2 to 9 on the state that is then locked, which validation need not have seen. */
  ghost function WritePhase(s: NodeState, c: Call, env: Environment): (NodeState, Result<Unit, ProcessingError>)
    requires OrderOk(s, c, env)
  {
    var early := EarlyError(s, c.tx, env);
    if early.Some? then (s, Err(early.value))
    else
      var recorded := Recorded(s, c.tx);
      match c.miner
      case None => Finish(s.ledger, recorded, c.tx, env.saved)
      case Some(miner) =>
        var refusal := QueueFailure(Advanced(s.consensus), RewardId(c));
        if refusal.Some? then (recorded.(consensus := Advanced(s.consensus)), Err(QueueFailed(refusal.value)))
        else
          var queued := Queued(s.consensus, c, miner);
          var settled := SettleAll(recorded.ledger, queued, env.order, queued.pendingRewards);
          Finish(s.ledger, recorded.(ledger := settled.0, consensus := settled.1), c.tx, env.saved)
  }

  /** The rewards a write phase settles, whatever becomes of the call afterwards. */
  ghost function WriteSettles(s: NodeState, c: Call, env: Environment): seq<PendingReward>
    requires OrderOk(s, c, env)
  {
    if EarlyError(s, c.tx, env).Some? || c.miner.None? || QueueFailure(Advanced(s.consensus), RewardId(c)).Some? then []
    else
      var queued := Queued(s.consensus, c, c.miner.value);
      PaidRewards(Recorded(s, c.tx).ledger, queued, env.order, queued.pendingRewards)
  }

  /** The call ends with a mempool refusal. */
  ghost predicate Refused(s: NodeState, c: Call, env: Environment)
    requires OrderOk(s, c, env)
  {
    var r := WritePhase(s, c, env).1;
    r.Err? && r.error.MempoolFailed?
  }

  // ---- the gate and the rollback ----

  /** The gate rules out every early failure but a busy lock. */
  lemma GateIsSufficient(v: Validator, s: NodeState, c: Call, env: Environment)
    requires v.difficulty <= 255
    requires ValidateFull(v, c.tx, s.dag.transactions, s.ledger, c.minFee).None?
    requires L.Total(s.ledger) <= U64_MAX && L.BurnTracked(s.ledger) && c.tx.sender != FEE_BURN_ADDRESS
    ensures EarlyError(s, c.tx, env).None? <==> env.dagFree && env.ledgerFree && env.mempoolFree
  {
    GateMatchesInsertion(c.tx, s.dag.transactions);
    L.TransferCannotOverflow(s.ledger, c.tx.sender, c.tx.receiver, c.tx.amount, c.tx.fee);
  }

  /** When the pool's minimum fee was synchronized first, the pool only refuses for lack of room. */
  lemma SyncedPoolOnlyRefusesWhenFull(v: Validator, s: NodeState, c: Call)
    requires v.difficulty <= 255 && s.mempool.minFee == c.minFee
    requires ValidateFull(v, c.tx, s.dag.transactions, s.ledger, c.minFee).None?
    ensures M.AddFailure(s.mempool, c.tx).Some? <==>
              |s.mempool.queue| >= s.mempool.maxSize && c.tx.fee <= M.LowestFee(s.mempool.queue)
  {
  }

  /** Nothing goes wrong after the DAG insertion. */
  predicate PassesLate(s: NodeState, c: Call, env: Environment) {
    && (c.miner.Some? ==> QueueFailure(Advanced(s.consensus), RewardId(c)).None?)
    && M.AddFailure(s.mempool, c.tx).None?
    && env.saved
  }

  /** A call succeeds or changes nothing exactly when it fails before the DAG insertion is done, or not at all:
    * afterwards the transaction stays in the DAG. Holds for any interference. */
  lemma RollbackIsExact(s: NodeState, c: Call, env: Environment)
    requires OrderOk(s, c, env)
    ensures var (s', r) := WritePhase(s, c, env);
            && (r.Ok? || s' == s <==> EarlyError(s, c.tx, env).Some? || PassesLate(s, c, env))
            && (r.Ok? <==> EarlyError(s, c.tx, env).None? && PassesLate(s, c, env))
            && (EarlyError(s, c.tx, env).None? ==> c.tx.id !in s.dag.transactions && s'.dag == D.Insert(s.dag, c.tx))
  {
    if EarlyError(s, c.tx, env).None? {
      assert c.tx.id in WritePhase(s, c, env).0.dag.transactions;
    }
  }

  class TransactionProcessor {
    const validator: Validator

    constructor (validator: Validator)
      ensures this.validator == validator
    {
      this.validator := validator;
    }

    /** The whole pipeline when nothing runs between validation and locking. */
    method Process(c: Call, dag: D.DAG, ledger: L.Ledger, mempool: M.Mempool, consensus: ConsensusState,
                   dagFree: bool, ledgerFree: bool, mempoolFree: bool, saved: bool)
      returns (r: Result<Unit, ProcessingError>, ghost env: Environment)
      requires validator.difficulty <= 255
      modifies dag, ledger, mempool, consensus
      ensures var before := NodeState(old(dag.State()), old(ledger.State()), old(consensus.State()), old(mempool.State()));
              var after := NodeState(dag.State(), ledger.State(), consensus.State(), mempool.State());
              var gate := ValidateFull(validator, c.tx, before.dag.transactions, before.ledger, c.minFee);
              if gate.Some? then after == before && r == Err(ValidationFailed(gate.value))
              else OrderOk(before, c, env) && (after, r) == WritePhase(before, c, env)
                   && (env.dagFree, env.ledgerFree, env.mempoolFree, env.saved) == (dagFree, ledgerFree, mempoolFree, saved)
    {
      env := Environment(dagFree, ledgerFree, mempoolFree, [], saved);
      var gate := ValidateFull(validator, c.tx, dag.transactions,
                               L.LedgerState(ledger.balances, ledger.nonces, ledger.totalFeesBurned, ledger.totalSupply), c.minFee);
      if gate.Some? {
        return Err(ValidationFailed(gate.value)), env;
      }
      r, env := WriteLocked(c, dag, ledger, mempool, consensus, dagFree, ledgerFree, mempoolFree, saved);
    }

    /** Everything after validation, on whatever state the locks then guard. */
    method WriteLocked(c: Call, dag: D.DAG, ledger: L.Ledger, mempool: M.Mempool, consensus: ConsensusState,
                       dagFree: bool, ledgerFree: bool, mempoolFree: bool, saved: bool)
      returns (r: Result<Unit, ProcessingError>, ghost env: Environment)
      modifies dag, ledger, mempool, consensus
      ensures var before := NodeState(old(dag.State()), old(ledger.State()), old(consensus.State()), old(mempool.State()));
              var after := NodeState(dag.State(), ledger.State(), consensus.State(), mempool.State());
              && OrderOk(before, c, env)
              && (after, r) == WritePhase(before, c, env)
              && env == Environment(dagFree, ledgerFree, mempoolFree, env.order, saved)
    {
      ghost var before := NodeState(dag.State(), ledger.State(), consensus.State(), mempool.State());
      env := SomeOrder(before, c, Environment(dagFree, ledgerFree, mempoolFree, [], saved));
      if !dagFree {
        return Err(LockBusy(DagLock)), env;
      }
      if !ledgerFree {
        return Err(LockBusy(LedgerLock)), env;
      }
      if !mempoolFree {
        return Err(LockBusy(MempoolLock)), env;
      }
      var snapshot := L.LedgerState(ledger.balances, ledger.nonces, ledger.totalFeesBurned, ledger.totalSupply);
      var paid := ledger.TransferInternal(c.tx.sender, c.tx.receiver, c.tx.amount, c.tx.fee);
      if paid.Err? {
        ledger.Restore(snapshot);
        return Err(TransferFailed(paid.error)), env;
      }
      var committed := ledger.ValidateAndCommitNonceInternal(c.tx.sender, c.tx.accountNonce);
      if committed.Err? {
        ledger.Restore(snapshot);
        return Err(NonceFailed(committed.error)), env;
      }
      var inserted := dag.AddTransactionValidated(c.tx);
      if inserted.Err? {
        ledger.Restore(snapshot);
        return Err(DagFailed(inserted.error)), env;
      }
      assert EarlyError(before, c.tx, env).None?;
      if c.miner.Some? {
        var queued;
        queued, env := QueueAndSettle(c, c.miner.value, ledger, consensus, before.consensus, env);
        if queued.Err? {
          return Err(QueueFailed(queued.error)), env;
        }
      }
      var pooled := mempool.AddInternal(c.tx);
      if pooled.Err? {
        ledger.Restore(snapshot);
        return Err(MempoolFailed(pooled.error)), env;
      }
      if !saved {
        return Err(PersistenceFailed), env;
      }
      return Ok(Unit), env;
    }

    /** Step 7: raise the height, queue this block's reward, settle what is final. */
    method QueueAndSettle(c: Call, miner: Address, ledger: L.Ledger, consensus: ConsensusState,
                          ghost start: ConsensusValue, ghost env0: Environment)
      returns (r: Result<Unit, QueueError>, ghost env: Environment)
      requires consensus.State() == start
      requires Enumerates(env0.order, Finalized(Queued(start, c, miner)))
      modifies ledger, consensus
      ensures env == env0.(order := env.order)
      ensures Enumerates(env.order, Finalized(Queued(start, c, miner)))
      ensures var refusal := QueueFailure(Advanced(start), RewardId(c));
              if refusal.Some? then
                r == Err(refusal.value) && consensus.State() == Advanced(start) && ledger.State() == old(ledger.State())
              else
                var queued := Queued(start, c, miner);
                r == Ok(Unit)
                && (ledger.State(), consensus.State()) == SettleAll(old(ledger.State()), queued, env.order, queued.pendingRewards)
      ensures r.Ok? ==> var height := start.currentHeight + 1;
                        WaitsAs(consensus.State(), RewardId(c), PendingReward(miner, E.CalculateReward(height), height))
    {
      env := env0;
      consensus.IncrementHeight();
      var height := consensus.currentHeight;
      var id := if c.blockId.Some? then c.blockId.value else c.tx.id;
      r := consensus.QueuePendingReward(id, miner, E.CalculateReward(height), height);
      if r.Err? {
        return;
      }
      var waiting := consensus.pendingRewards;
      var order := consensus.FinalizedPendingRewards();
      env := env.(order := order);
      assert forall id :: id in order ==> id in waiting;
      StillQueued(ledger.State(), start, c, miner, order);
      SettleLoop(order, waiting, ledger, consensus);
    }

    method SettleLoop(order: seq<BlockId>, waiting: map<BlockId, PendingReward>, ledger: L.Ledger, consensus: ConsensusState)
      requires forall id :: id in order ==> id in waiting
      modifies ledger, consensus
      ensures (ledger.State(), consensus.State()) == SettleAll(old(ledger.State()), old(consensus.State()), order, waiting)
    {
      for i := 0 to |order|
        invariant forall id :: id in order[..i] ==> id in waiting
        invariant (ledger.State(), consensus.State()) == SettleAll(old(ledger.State()), old(consensus.State()), order[..i], waiting)
      {
        assert order[..i + 1][..i] == order[..i] && order[i] in waiting;
        var pending := waiting[order[i]];
        var paid := ledger.ApplyBlockReward(pending.validator, order[i], pending.blockHeight, consensus);
        if paid.Ok? {
          consensus.MarkBlockRewarded(order[i]);
          consensus.SettlePendingReward(order[i]);
        }
      }
      assert order[..|order|] == order;
    }
  }

  /** Some listing of the finalized rewards always exists. */
  lemma SomeOrder(s: NodeState, c: Call, env0: Environment) returns (env: Environment)
    ensures env == env0.(order := env.order) && OrderOk(s, c, env)
  {
    env := env0;
    if c.miner.Some? {
      var order := Listing(Finalized(Queued(s.consensus, c, c.miner.value)));
      env := env0.(order := order);
    }
  }

  lemma Listing(s: set<BlockId>) returns (order: seq<BlockId>)
    ensures Enumerates(order, s)
    decreases s
  {
    if s == {} {
      order := [];
    } else {
      var id :| id in s;
      var rest := Listing(s - {id});
      order := rest + [id];
    }
  }
}
