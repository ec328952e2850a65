/** What a repaired ledger keeps of the ledger that ran: whole runs against the replay of what the disk brings back. */
module Repair {
  import opened Types
  import opened Bags
  import opened Sums
  import opened Paths
  import opened Validation
  import opened Processor
  import opened Consensus
  import opened Runs
  import opened LedgerModel
  import opened Replaying
  import opened DeadEnds
  import D = Dag
  import E = Emission
  import R = Rebuilding
  import Restart
  import S = Settlement

  /** The burn address takes no part. */
  predicate PlainCall(c: Call) {
    c.tx.receiver != FEE_BURN_ADDRESS && c.tx.id != GENESIS
  }

  ghost predicate PlainEvents(events: seq<Event>) {
    forall e :: e in events && e.Begin? ==> PlainCall(e.call)
  }

  ghost predicate PlainFlight(v: Validator, calls: seq<Call>)
    requires v.difficulty <= 255
  {
    forall c :: c in calls ==> PlainCall(c) && ValidatePure(v, c.tx).None?
  }

  // ---- the accounts of a running node ----

  /** Every account holds what the charged transactions say plus the rewards it earned. */
  ghost predicate Accounts(l0: LedgerState, charged: seq<Transaction>, l: LedgerState, earned: seq<PendingReward>) {
    && (forall a :: Balance(l, a) == Balance(l0, a) + Net(charged, a) + PaidTo(earned, a))
    && (forall a :: Nonce(l, a) == HighestNonce(charged, a))
    && Total(l) == Total(l0) + PaidTotal(earned)
  }

  ghost predicate OrdinaryStore(v: Validator, txs: Transactions)
    requires v.difficulty <= 255
  {
    forall id :: id in txs ==> txs[id].receiver != FEE_BURN_ADDRESS && ValidatePure(v, txs[id]).None?
  }

  ghost predicate Once(list: seq<Transaction>) {
    forall i, j :: 0 <= i < j < |list| ==> list[i] != list[j]
  }

  ghost predicate Holds(txs: Transactions, tx: Transaction) {
    tx.id in txs && txs[tx.id] == tx
  }

  /** Each stored transaction that the pool did not refuse, once. */
  ghost predicate ListsCharged(txs: Transactions, refused: set<Transaction>, list: seq<Transaction>) {
    Once(list) && forall tx :: tx in list <==> Holds(txs, tx) && tx !in refused
  }

  /** The pool refused only what is stored and not on disk. */
  ghost predicate RefusedAside(m: Machine) {
    forall tx :: tx in m.refused ==> Holds(m.node.dag.transactions, tx) && tx.id !in m.disk
  }

  ghost predicate Balanced(l0: LedgerState, m: Machine) {
    exists charged :: ListsCharged(m.node.dag.transactions, m.refused, charged) && Accounts(l0, charged, m.node.ledger, m.earned)
  }

  ghost predicate Kept(v: Validator, l0: LedgerState, m: Machine)
    requires v.difficulty <= 255
  {
    && Balanced(l0, m) && RefusedAside(m) && Restart.Backed(m.node.dag.transactions, m.disk)
    && OrdinaryStore(v, m.node.dag.transactions)
    && PlainFlight(v, m.inFlight) && Pooled(m.node)
  }

  /** Raising to the maximum and committing agree on every nonce the ledger accepts. */
  lemma CommitIsRaise(l: LedgerState, tx: Transaction)
    requires NonceError(l, tx.sender, tx.accountNonce).None?
    ensures CommitNonce(l, tx.sender, tx.accountNonce) == RaiseNonce(l, tx)
  {
  }

  lemma RecordingKeepsAccounts(l0: LedgerState, charged: seq<Transaction>, s: NodeState, tx: Transaction, env: Environment,
                               earned: seq<PendingReward>)
    requires Accounts(l0, charged, s.ledger, earned) && EarlyError(s, tx, env).None?
    requires tx.sender != FEE_BURN_ADDRESS && tx.receiver != FEE_BURN_ADDRESS
    ensures Accounts(l0, charged + [tx], Recorded(s, tx).ledger, earned)
  {
    var l', longer := Recorded(s, tx).ledger, charged + [tx];
    assert longer[..|longer| - 1] == charged;
    CommitIsRaise(Transferred(s.ledger, tx), tx);
    TransferTotal(s.ledger, tx.sender, tx.receiver, tx.amount, tx.fee);
    forall a ensures Balance(l', a) - Net(longer, a) == Balance(s.ledger, a) - Net(charged, a) {
      TransferMovesMoney(s.ledger, tx.sender, tx.receiver, tx.amount, tx.fee, a);
    }
    forall a ensures Nonce(l', a) == HighestNonce(longer, a) {
      assert Nonce(s.ledger, a) == HighestNonce(charged, a);
    }
  }

  lemma PayingKeepsAccounts(l0: LedgerState, charged: seq<Transaction>, l: LedgerState, l': LedgerState,
                            earned: seq<PendingReward>, rewards: seq<PendingReward>)
    requires Accounts(l0, charged, l, earned) && PaysExactly(l, l', rewards)
    ensures Accounts(l0, charged, l', earned + rewards)
  {
    forall a ensures PaidTo(earned + rewards, a) == PaidTo(earned, a) + PaidTo(rewards, a) {
      PaidConcat(earned, rewards, a);
    }
    PaidConcat(earned, rewards, FEE_BURN_ADDRESS);
    forall a ensures Nonce(l', a) == HighestNonce(charged, a) {
      assert Nonce(l, a) == HighestNonce(charged, a);
    }
  }

  /** What a write phase that the mempool does not refuse makes of the recorded ledger. */
  lemma WritePaysExactly(s: NodeState, c: Call, env: Environment)
    requires OrderOk(s, c, env) && EarlyError(s, c.tx, env).None? && !Refused(s, c, env)
    ensures PaysExactly(Recorded(s, c.tx).ledger, WritePhase(s, c, env).0.ledger, WriteSettles(s, c, env))
  {
    if c.miner.Some? && QueueFailure(Advanced(s.consensus), RewardId(c)).None? {
      var queued := Queued(s.consensus, c, c.miner.value);
      SettlingPaysExactly(Recorded(s, c.tx).ledger, queued, env.order, queued.pendingRewards);
    }
  }

  /** A refused call leaves the ledger as it was. */
  lemma RefusalRestores(s: NodeState, c: Call, env: Environment)
    requires OrderOk(s, c, env) && Refused(s, c, env)
    ensures EarlyError(s, c.tx, env).None? && WritePhase(s, c, env).0.ledger == s.ledger && WritePhase(s, c, env).1.Err?
  {
  }

  lemma ChargedGrows(d: D.DagState, tx: Transaction, refused: set<Transaction>, charged: seq<Transaction>)
    requires ListsCharged(d.transactions, refused, charged) && D.InsertError(d.transactions, tx).None?
    requires forall t :: t in refused ==> Holds(d.transactions, t)
    ensures ListsCharged(D.Insert(d, tx).transactions, refused + {tx}, charged)
    ensures ListsCharged(D.Insert(d, tx).transactions, refused, charged + [tx])
  {
    var txs, txs' := d.transactions, D.Insert(d, tx).transactions;
    assert tx.id !in txs && !Holds(txs, tx);
    forall t ensures Holds(txs', t) <==> Holds(txs, t) || t == tx {
    }
    forall t ensures t in charged + [tx] <==> Holds(txs', t) && t !in refused {
      assert t in charged + [tx] <==> t in charged || t == tx;
    }
  }

  lemma WriteKeepsBalanced(l0: LedgerState, m: Machine, c: Call, env: Environment)
    requires OrderOk(m.node, c, env) && PlainCall(c) && c.tx.sender != FEE_BURN_ADDRESS
    requires Balanced(l0, m) && RefusedAside(m)
    ensures var m' := Written(m, c, env); Balanced(l0, m')
  {
    var s := m.node;
    WriteOutcome(s, c, env);
    var charged: seq<Transaction> :| ListsCharged(s.dag.transactions, m.refused, charged) && Accounts(l0, charged, s.ledger, m.earned);
    if Refused(s, c, env) {
      RefusalRestores(s, c, env);
      ChargedGrows(s.dag, c.tx, m.refused, charged);
    } else if EarlyError(s, c.tx, env).None? {
      ChargedGrows(s.dag, c.tx, m.refused, charged);
      RecordingKeepsAccounts(l0, charged, s, c.tx, env, m.earned);
      WritePaysExactly(s, c, env);
      PayingKeepsAccounts(l0, charged + [c.tx], Recorded(s, c.tx).ledger, WritePhase(s, c, env).0.ledger,
                          m.earned, WriteSettles(s, c, env));
    } else {
      assert m.earned + [] == m.earned;
    }
  }

  /** The parts of the machine that the accounts depend on, after a write. */
  ghost function Written(m: Machine, c: Call, env: Environment): Machine
    requires OrderOk(m.node, c, env)
  {
    if Refused(m.node, c, env) then m.(node := WritePhase(m.node, c, env).0, refused := m.refused + {c.tx})
    else m.(node := WritePhase(m.node, c, env).0, earned := m.earned + WriteSettles(m.node, c, env))
  }

  lemma StepKeepsFlight(v: Validator, m: Machine, e: Event)
    requires v.difficulty <= 255 && (e.Begin? ==> PlainCall(e.call))
    requires PlainFlight(v, m.inFlight)
    ensures PlainFlight(v, Exec(v, m, e).inFlight)
  {
  }

  lemma OrdinaryStoreGrows(v: Validator, d: D.DagState, tx: Transaction)
    requires v.difficulty <= 255 && OrdinaryStore(v, d.transactions)
    requires tx.receiver != FEE_BURN_ADDRESS && ValidatePure(v, tx).None?
    ensures OrdinaryStore(v, D.Insert(d, tx).transactions)
  {
  }

  lemma StepKeepsStore(v: Validator, m: Machine, e: Event)
    requires v.difficulty <= 255 && Pooled(m.node)
    requires OrdinaryStore(v, m.node.dag.transactions) && PlainFlight(v, m.inFlight)
    ensures OrdinaryStore(v, Exec(v, m, e).node.dag.transactions)
  {
    StepKeepsPooled(v, m, e);
    if Writes(m, e) {
      var c := m.inFlight[e.slot];
      assert c in m.inFlight;
      WriteOutcome(m.node, c, e.env);
      OrdinaryStoreGrows(v, m.node.dag, c.tx);
    }
  }

  lemma StepKeepsBalanced(v: Validator, l0: LedgerState, m: Machine, e: Event)
    requires v.difficulty <= 255 && S.BurnKeyUnknown(v) && PlainFlight(v, m.inFlight)
    requires Balanced(l0, m) && RefusedAside(m) && Pooled(m.node)
    ensures Balanced(l0, Exec(v, m, e))
  {
    StepKeepsPooled(v, m, e);
    if Writes(m, e) {
      assert m.inFlight[e.slot] in m.inFlight;
      WriteKeepsBalanced(l0, m, m.inFlight[e.slot], e.env);
    }
  }

  lemma RefusedStays(d: D.DagState, tx: Transaction, refused: set<Transaction>, disk: Transactions)
    requires D.InsertError(d.transactions, tx).None? && tx.id !in disk
    requires forall t :: t in refused ==> Holds(d.transactions, t) && t.id !in disk
    ensures var txs' := D.Insert(d, tx).transactions;
            && (forall t :: t in refused + {tx} ==> Holds(txs', t) && t.id !in disk)
            && (forall t :: t in refused ==> Holds(txs', t) && t.id !in disk[tx.id := tx])
  {
  }

  lemma StepKeepsRefused(v: Validator, m: Machine, e: Event)
    requires v.difficulty <= 255 && RefusedAside(m) && Restart.Backed(m.node.dag.transactions, m.disk) && Pooled(m.node)
    ensures RefusedAside(Exec(v, m, e))
  {
    StepKeepsPooled(v, m, e);
    if Writes(m, e) {
      var c := m.inFlight[e.slot];
      WriteOutcome(m.node, c, e.env);
      if Refused(m.node, c, e.env) {
        RefusalRestores(m.node, c, e.env);
      }
      if EarlyError(m.node, c.tx, e.env).None? {
        RefusedStays(m.node.dag, c.tx, m.refused, m.disk);
      }
    }
  }

  lemma WriteIsNotRefused(v: Validator, m: Machine, e: Event)
    requires v.difficulty <= 255 && Writes(m, e) && Exec(v, m, e).refused == {}
    ensures !Refused(m.node, m.inFlight[e.slot], e.env)
  {
  }

  lemma RefusedGrow(v: Validator, m: Machine, e: Event)
    requires v.difficulty <= 255
    ensures m.refused <= Exec(v, m, e).refused
  {
  }

  /** Over every run, the accounts are what the stored transactions say that the pool did not refuse,
    * plus the rewards earned. */
  lemma {:induction false} RunsKeepAccounts(v: Validator, l0: LedgerState, m: Machine, events: seq<Event>)
    requires v.difficulty <= 255 && S.BurnKeyUnknown(v) && Kept(v, l0, m) && PlainEvents(events)
    ensures Kept(v, l0, ExecAll(v, m, events))
  {
    if events != [] {
      var before, e := events[..|events| - 1], events[|events| - 1];
      SplitLast(events);
      var m1 := ExecAll(v, m, before);
      RunsKeepAccounts(v, l0, m, before);
      StepKeepsFlight(v, m1, e);
      StepKeepsStore(v, m1, e);
      StepKeepsBalanced(v, l0, m1, e);
      StepKeepsRefused(v, m1, e);
      StepKeepsPooled(v, m1, e);
      Restart.StepBacks(v, m1, e);
    }
  }

  /** A node before its first call. */
  ghost predicate Fresh(m: Machine) {
    && m.node.dag == D.EMPTY_DAG && m.node.consensus == INITIAL_CONSENSUS
    && m.node.ledger.nonces == map[] && BurnTracked(m.node.ledger)
    && m.node.mempool.queue == []
    && m.inFlight == [] && m.disk == map[] && m.refused == {} && m.earned == [] && m.forfeited == []
  }

  lemma FreshIsKept(v: Validator, m: Machine)
    requires v.difficulty <= 255 && Fresh(m)
    ensures Kept(v, m.node.ledger, m)
  {
    assert ListsCharged(m.node.dag.transactions, m.refused, []);
    assert Accounts(m.node.ledger, [], m.node.ledger, []);
  }

  // ---- the repair ----

  /** The list holds each stored transaction once, in any order. */
  ghost predicate ListsStore(txs: Transactions, list: seq<Transaction>) {
    Once(list) && forall tx :: tx in list <==> Holds(txs, tx)
  }

  lemma {:induction false} OnceEach(list: seq<Transaction>, tx: Transaction)
    requires Once(list)
    ensures multiset(list)[tx] == if tx in list then 1 else 0
  {
    if list != [] {
      SplitLast(list);
      LastInBag(list);
      OnceEach(list[..|list| - 1], tx);
    }
  }

  lemma ListingIsOrder(txs: Transactions, order: seq<Transaction>, list: seq<Transaction>)
    requires InsertionOrder(txs, order) && ListsStore(txs, list)
    ensures multiset(list) == multiset(order)
  {
    InsertionOrderDistinct(txs, order);
    forall tx ensures multiset(list)[tx] == multiset(order)[tx] {
      OnceEach(list, tx);
      OnceEach(order, tx);
      if tx in list {
        var i :| 0 <= i < |order| && order[i].id == tx.id;
      }
    }
  }

  lemma StoreIsAmple(v: Validator, l: LedgerState, txs: Transactions, list: seq<Transaction>)
    requires v.difficulty <= 255 && S.BurnKeyUnknown(v) && OrdinaryStore(v, txs)
    requires forall tx :: tx in list ==> Holds(txs, tx)
    requires Total(l) <= U64_MAX && BurnTracked(l) && l.nonces == map[]
    ensures Ample(l, list)
  {
    forall tx | tx in list
      ensures tx.sender != FEE_BURN_ADDRESS && tx.receiver != FEE_BURN_ADDRESS && tx.amount + tx.fee <= U64_MAX
    {
      assert ValidatePure(v, txs[tx.id]).None?;
    }
  }

  /** The ledger a repair of this DAG ends with. */
  ghost function Repaired(l0: LedgerState, list: seq<Transaction>): LedgerState {
    Recount(ReplayFrom(l0, list).ledger)
  }

  /** Stored, not refused, and not replayed: each such transaction once. */
  ghost predicate ListsLost(m: Machine, moved: seq<Transaction>, lost: seq<Transaction>) {
    Once(lost) && forall tx :: tx in lost <==> Holds(m.node.dag.transactions, tx) && tx !in m.refused && tx !in moved
  }

  lemma LostExists(m: Machine, moved: seq<Transaction>) returns (lost: seq<Transaction>)
    ensures ListsLost(m, moved, lost)
  {
    var txs := m.node.dag.transactions;
    var s := set id | id in txs && txs[id].id == id && txs[id] !in m.refused && txs[id] !in moved :: txs[id];
    lost := ListSet(s);
  }

  lemma ListSet(s: set<Transaction>) returns (list: seq<Transaction>)
    ensures Once(list) && forall tx :: tx in list <==> tx in s
    decreases s
  {
    if s == {} {
      list := [];
    } else {
      var tx :| tx in s;
      var rest := ListSet(s - {tx});
      list := rest + [tx];
    }
  }

  ghost predicate SameBalances(live: LedgerState, repaired: LedgerState) {
    forall a :: Balance(repaired, a) == Balance(live, a)
  }

  /** Against the live ledger, each account lacks the rewards it earned and what the lost transactions did to it. */
  ghost predicate ShortOf(live: LedgerState, repaired: LedgerState, earned: seq<PendingReward>, lost: seq<Transaction>) {
    && (forall a :: Balance(live, a) == Balance(repaired, a) + PaidTo(earned, a) + Net(lost, a))
    && (forall a :: Nonce(live, a) == if Nonce(repaired, a) < HighestNonce(lost, a) then HighestNonce(lost, a) else Nonce(repaired, a))
    && Total(live) == Total(repaired) + PaidTotal(earned)
  }

  /** What the disk brings back was charged. */
  lemma ReplayedWasCharged(m: Machine, back: seq<Transaction>, list: seq<Transaction>, tx: Transaction)
    requires D.ValidDag(m.node.dag) && Restart.Backed(m.node.dag.transactions, m.disk) && RefusedAside(m)
    requires Restart.ReadBack(m.disk, back) && ListsStore(R.Rebuild(D.EMPTY_DAG, back).dag.transactions, list)
    requires tx in list
    ensures Holds(m.node.dag.transactions, tx) && tx !in m.refused
  {
    Restart.ReadBackIsHashed(m.node.dag, m.disk, back);
    R.RebuildFromEmpty(back);
  }

  /** The charged transactions are the replayed and the lost ones. */
  lemma ChargedSplits(txs: Transactions, refused: set<Transaction>, charged: seq<Transaction>, list: seq<Transaction>,
                      r: Replay, lost: seq<Transaction>)
    requires ListsCharged(txs, refused, charged)
    requires Once(list) && forall tx :: tx in list ==> tx in charged
    requires Bag(r) == multiset(list)
    requires Once(lost) && forall tx :: tx in lost <==> tx in charged && tx !in r.moved
    ensures multiset(charged) == multiset(r.moved + lost)
  {
    forall tx ensures multiset(charged)[tx] == multiset(r.moved + lost)[tx] {
      OnceEach(charged, tx);
      OnceEach(lost, tx);
      OnceEach(list, tx);
      assert multiset(r.moved + lost)[tx] == multiset(r.moved)[tx] + multiset(lost)[tx];
      assert multiset(r.moved)[tx] + multiset(r.pending)[tx] == multiset(list)[tx];
      assert tx in r.moved <==> multiset(r.moved)[tx] > 0;
    }
  }

  /** The replay against accounts that follow the charged transactions. */
  lemma RepairOfAccounts(l0: LedgerState, charged: seq<Transaction>, live: LedgerState, earned: seq<PendingReward>,
                         list: seq<Transaction>, lost: seq<Transaction>)
    requires Accounts(l0, charged, live, earned) && Ample(l0, list)
    requires multiset(charged) == multiset(ReplayFrom(l0, list).moved + lost)
    ensures ShortOf(live, Repaired(l0, list), earned, lost)
  {
    ReplayBooks(l0, list);
    var moved := ReplayFrom(l0, list).moved;
    SameBooks(l0, charged, moved + lost);
    forall a ensures Net(charged, a) == Net(moved, a) + Net(lost, a) {
      NetConcat(moved, lost, a);
    }
    forall a ensures HighestNonce(charged, a)
                  == if HighestNonce(moved, a) < HighestNonce(lost, a) then HighestNonce(lost, a) else HighestNonce(moved, a) {
      HighestConcat(moved, lost, a);
    }
  }

  /** For every run, whatever the pool refused and the disk lost, and in whatever order the disk and the hash map
    * are read: a repaired account differs from the live one by exactly the rewards earned and the lost transactions,
    * so all are restored exactly when no reward was earned and the lost transactions cancel out. */
  lemma RepairLosesExactly(v: Validator, m: Machine, events: seq<Event>, back: seq<Transaction>, list: seq<Transaction>,
                           lost: seq<Transaction>)
    requires v.difficulty <= 255 && S.BurnKeyUnknown(v) && Fresh(m) && Total(m.node.ledger) <= U64_MAX
    requires PlainEvents(events) && HashedIds(events)
    requires Restart.ReadBack(ExecAll(v, m, events).disk, back)
    requires ListsStore(R.Rebuild(D.EMPTY_DAG, back).dag.transactions, list)
    requires ListsLost(ExecAll(v, m, events), ReplayFrom(m.node.ledger, list).moved, lost)
    ensures var m' := ExecAll(v, m, events);
            var live, repaired := m'.node.ledger, Repaired(m.node.ledger, list);
            && ShortOf(live, repaired, m'.earned, lost)
            && (SameBalances(live, repaired) <==> PaidTotal(m'.earned) == 0 && forall a :: Net(lost, a) == 0)
            && repaired.totalSupply + repaired.totalFeesBurned == Total(m.node.ledger)
  {
    var l0, m' := m.node.ledger, ExecAll(v, m, events);
    EmptyNodeIsInStep(m);
    RunsStayInStep(v, m, events);
    FreshIsKept(v, m);
    RunsKeepAccounts(v, l0, m, events);
    forall tx | tx in list ensures Holds(m'.node.dag.transactions, tx) && tx !in m'.refused {
      ReplayedWasCharged(m', back, list, tx);
    }
    StoreIsAmple(v, l0, m'.node.dag.transactions, list);
    RepairOfMachine(l0, m', list, lost);
    SameExactlyWithoutLoss(m'.node.ledger, Repaired(l0, list), m'.earned, lost);
    RecountedSupply(l0, list);
  }

  lemma RepairOfMachine(l0: LedgerState, m: Machine, list: seq<Transaction>, lost: seq<Transaction>)
    requires Balanced(l0, m) && Ample(l0, list) && Once(list)
    requires forall tx :: tx in list ==> Holds(m.node.dag.transactions, tx) && tx !in m.refused
    requires ListsLost(m, ReplayFrom(l0, list).moved, lost)
    ensures ShortOf(m.node.ledger, Repaired(l0, list), m.earned, lost)
  {
    var charged: seq<Transaction> :| ListsCharged(m.node.dag.transactions, m.refused, charged) && Accounts(l0, charged, m.node.ledger, m.earned);
    ReplayEndsStuck(l0, list);
    ChargedSplits(m.node.dag.transactions, m.refused, charged, list, ReplayFrom(l0, list), lost);
    RepairOfAccounts(l0, charged, m.node.ledger, m.earned, list, lost);
  }

  /** The recount calls everything outside the burn address supply. */
  lemma RecountedSupply(l0: LedgerState, list: seq<Transaction>)
    requires Ample(l0, list)
    ensures Repaired(l0, list).totalSupply + Repaired(l0, list).totalFeesBurned == Total(l0)
  {
    ReplayBooks(l0, list);
    var l := ReplayFrom(l0, list).ledger;
    SumAtLeastTwo(l.balances, FEE_BURN_ADDRESS, FAUCET_ADDRESS);
  }

  /** Ledgers with the same balances hold the same in all, whoever is listed with nothing. */
  lemma {:induction false} SameSums(x: map<Address, int>, y: map<Address, int>)
    requires forall a :: GetOr(x, a, 0) == GetOr(y, a, 0)
    ensures MapSum(x) == MapSum(y)
    decreases x.Keys
  {
    if x == map[] {
      forall a | a in y ensures y[a] == 0 {
        assert GetOr(x, a, 0) == GetOr(y, a, 0);
      }
      ZeroSum(y);
    } else {
      var k :| k in x;
      SumRemove(x, k);
      assert GetOr(x, k, 0) == GetOr(y, k, 0);
      if k in y {
        SumRemove(y, k);
      } else {
        assert y - {k} == y;
      }
      forall a ensures GetOr(x - {k}, a, 0) == GetOr(y - {k}, a, 0) {
        assert GetOr(x, a, 0) == GetOr(y, a, 0);
      }
      SameSums(x - {k}, y - {k});
    }
  }

  lemma {:induction false} ZeroSum(y: map<Address, int>)
    requires forall a :: a in y ==> y[a] == 0
    ensures MapSum(y) == 0
    decreases y.Keys
  {
    if y != map[] {
      var k :| k in y;
      SumRemove(y, k);
      ZeroSum(y - {k});
    }
  }

  lemma SameBalancesSameTotal(live: LedgerState, repaired: LedgerState)
    requires SameBalances(live, repaired)
    ensures Total(live) == Total(repaired)
  {
    var x: map<Address, int>, y: map<Address, int> := live.balances, repaired.balances;
    forall a ensures GetOr(x, a, 0) == GetOr(y, a, 0) {
      assert Balance(repaired, a) == Balance(live, a);
    }
    SameSums(x, y);
  }

  lemma SameExactlyWithoutLoss(live: LedgerState, repaired: LedgerState, earned: seq<PendingReward>, lost: seq<Transaction>)
    requires ShortOf(live, repaired, earned, lost)
    ensures SameBalances(live, repaired) <==> PaidTotal(earned) == 0 && forall a :: Net(lost, a) == 0
  {
    if SameBalances(live, repaired) {
      SameBalancesSameTotal(live, repaired);
      forall a ensures Net(lost, a) == 0 {
        PaidToAtMost(earned, a);
        assert Balance(repaired, a) == Balance(live, a);
      }
    }
    if !SameBalances(live, repaired) {
      var a :| Balance(repaired, a) != Balance(live, a);
      PaidToAtMost(earned, a);
      assert PaidTotal(earned) == 0 ==> Net(lost, a) != 0;
    }
  }

  lemma {:induction false} PaidToAtMost(rewards: seq<PendingReward>, a: Address)
    ensures PaidTo(rewards, a) <= PaidTotal(rewards)
  {
    if rewards != [] {
      PaidToAtMost(rewards[..|rewards| - 1], a);
    }
  }

  // ---- runs that lose nothing on the way to the disk ----

  /** When no call failed late, the pool refused nothing and the disk brings the whole DAG back. */
  lemma NothingIsLost(v: Validator, m: Machine, events: seq<Event>, back: seq<Transaction>)
    requires v.difficulty <= 255 && S.BurnKeyUnknown(v) && Fresh(m)
    requires PlainEvents(events) && HashedIds(events) && Restart.NeverFailsLate(v, m, events)
    requires Restart.ReadBack(ExecAll(v, m, events).disk, back)
    ensures ExecAll(v, m, events).refused == {}
    ensures R.Rebuild(D.EMPTY_DAG, back).dag.transactions == ExecAll(v, m, events).node.dag.transactions
  {
    EmptyNodeIsInStep(m);
    FreshIsKept(v, m);
    RunsKeepAccounts(v, m.node.ledger, m, events);
    Restart.RunsBack(v, m, events);
    Restart.RunSurvivesRestart(v, m, events, back);
    var m' := ExecAll(v, m, events);
    forall tx ensures tx !in m'.refused {
      assert tx in m'.refused ==> tx.id !in m'.disk;
    }
  }

  /** Then a repair that gets through forgets exactly the rewards, which are those of all final heights:
    * it restores all accounts exactly while no reward is final. */
  lemma RepairForgetsExactlyTheRewards(v: Validator, m: Machine, events: seq<Event>, back: seq<Transaction>,
                                       list: seq<Transaction>)
    requires v.difficulty <= 255 && S.BurnKeyUnknown(v) && Fresh(m)
    requires S.Roomy(S.Baseline(m.node.ledger.totalSupply, Total(m.node.ledger)))
    requires PlainEvents(events) && HashedIds(events) && S.OrdinaryEvents(events)
    requires Restart.NeverFailsLate(v, m, events) && Restart.ReadBack(ExecAll(v, m, events).disk, back)
    requires ListsStore(R.Rebuild(D.EMPTY_DAG, back).dag.transactions, list)
    requires ReplayFrom(m.node.ledger, list).pending == []
    ensures var m' := ExecAll(v, m, events);
            var live, repaired, height := m'.node.ledger, Repaired(m.node.ledger, list), m'.node.consensus.currentHeight;
            && ShortOf(live, repaired, m'.earned, [])
            && PaidTotal(m'.earned) == S.Minted(height)
            && (SameBalances(live, repaired) <==> height <= S.FINALITY)
  {
    var l0, m' := m.node.ledger, ExecAll(v, m, events);
    NothingIsLost(v, m, events, back);
    RunsMintTheSchedule(v, m, events);
    MintedIsPositive(m'.node.consensus.currentHeight);
    FreshIsKept(v, m);
    RunsKeepAccounts(v, l0, m, events);
    StoreIsAmple(v, l0, m'.node.dag.transactions, list);
    ReplayEndsStuck(l0, list);
    SameMembers(ReplayFrom(l0, list).moved, list);
    assert ListsLost(m', ReplayFrom(l0, list).moved, []);
    RepairLosesExactly(v, m, events, back, list, []);
  }

  lemma RunsMintTheSchedule(v: Validator, m: Machine, events: seq<Event>)
    requires v.difficulty <= 255 && S.BurnKeyUnknown(v) && Fresh(m) && S.OrdinaryEvents(events)
    requires S.Roomy(S.Baseline(m.node.ledger.totalSupply, Total(m.node.ledger)))
    requires ExecAll(v, m, events).refused == {}
    ensures PaidTotal(ExecAll(v, m, events).earned) == S.Minted(ExecAll(v, m, events).node.consensus.currentHeight)
  {
    S.FreshNodeIsSound(m);
    S.EarnedOrForfeited(v, S.Baseline(m.node.ledger.totalSupply, Total(m.node.ledger)), m, events);
    NothingForfeited(v, m, events);
  }

  lemma {:induction false} NothingForfeited(v: Validator, m: Machine, events: seq<Event>)
    requires v.difficulty <= 255 && m.forfeited == [] && ExecAll(v, m, events).refused == {}
    ensures ExecAll(v, m, events).forfeited == []
  {
    if events != [] {
      var m1, e := ExecAll(v, m, events[..|events| - 1]), events[|events| - 1];
      RefusedGrow(v, m1, e);
      NothingForfeited(v, m, events[..|events| - 1]);
      if Writes(m1, e) {
        WriteIsNotRefused(v, m1, e);
      }
    }
  }

  /** The schedule pays from the seventh height on. */
  lemma {:induction false} MintedIsPositive(height: nat)
    ensures S.Minted(height) > 0 <==> height > S.FINALITY
  {
    if height > S.FINALITY + 1 {
      MintedIsPositive(height - 1);
    } else if height == S.FINALITY + 1 {
      assert S.Minted(S.FINALITY) == 0;
      E.RewardIsPositive(1);
    }
  }

  // ---- runs without rewards ----

  /** Replaying in insertion order makes the live ledger again, transfer by transfer. */
  ghost predicate MirroredBy(l0: LedgerState, order: seq<Transaction>, l: LedgerState) {
    Playable(l0, order) && Paid(l0, order) == l
  }

  ghost predicate Mirrored(l0: LedgerState, s: NodeState) {
    exists order :: InsertionOrder(s.dag.transactions, order) && MirroredBy(l0, order, s.ledger)
  }

  lemma RecordingKeepsMirrored(l0: LedgerState, order: seq<Transaction>, s: NodeState, tx: Transaction, env: Environment)
    requires InsertionOrder(s.dag.transactions, order) && MirroredBy(l0, order, s.ledger)
    requires EarlyError(s, tx, env).None?
    ensures MirroredBy(l0, order + [tx], Recorded(s, tx).ledger)
  {
    PlayableAppend(l0, order, tx);
    CommitIsRaise(Transferred(s.ledger, tx), tx);
    forall p | D.ParentKnown(s.dag.transactions, p) ensures p == GENESIS || p in Ids(order) {
    }
  }

  lemma UnminedWrite(s: NodeState, c: Call, env: Environment)
    requires OrderOk(s, c, env) && c.miner.None? && !Refused(s, c, env)
    ensures var s' := WritePhase(s, c, env).0;
            if EarlyError(s, c.tx, env).Some? then s' == s
            else s'.dag == D.Insert(s.dag, c.tx) && s'.ledger == Recorded(s, c.tx).ledger
  {
  }

  lemma WriteKeepsMirrored(l0: LedgerState, s: NodeState, c: Call, env: Environment)
    requires OrderOk(s, c, env) && c.miner.None? && c.tx.id != GENESIS && Mirrored(l0, s)
    requires !Refused(s, c, env)
    ensures Mirrored(l0, WritePhase(s, c, env).0)
  {
    UnminedWrite(s, c, env);
    if EarlyError(s, c.tx, env).None? {
      var order: seq<Transaction> :| InsertionOrder(s.dag.transactions, order) && MirroredBy(l0, order, s.ledger);
      D.OrderAppend(s.dag.transactions, order, c.tx);
      RecordingKeepsMirrored(l0, order, s, c.tx, env);
      assert D.Insert(s.dag, c.tx).transactions == s.dag.transactions[c.tx.id := c.tx];
    }
  }

  lemma StepKeepsMirrored(v: Validator, l0: LedgerState, m: Machine, e: Event)
    requires v.difficulty <= 255 && Mirrored(l0, m.node) && PlainFlight(v, m.inFlight) && Unmined(m.inFlight)
    requires Exec(v, m, e).refused == {} && Pooled(m.node)
    ensures Mirrored(l0, Exec(v, m, e).node)
  {
    StepKeepsPooled(v, m, e);
    if Writes(m, e) {
      assert m.inFlight[e.slot] in m.inFlight;
      WriteIsNotRefused(v, m, e);
      WriteKeepsMirrored(l0, m.node, m.inFlight[e.slot], e.env);
    }
  }

  ghost predicate Unmined(calls: seq<Call>) {
    forall c :: c in calls ==> c.miner.None?
  }

  ghost predicate UnminedEvents(events: seq<Event>) {
    forall e :: e in events && e.Begin? ==> e.call.miner.None?
  }

  lemma StepKeepsUnmined(v: Validator, m: Machine, e: Event)
    requires v.difficulty <= 255 && Unmined(m.inFlight) && (e.Begin? ==> e.call.miner.None?)
    ensures Unmined(Exec(v, m, e).inFlight)
  {
  }

  lemma {:induction false} RunsStayMirrored(v: Validator, l0: LedgerState, m: Machine, events: seq<Event>)
    requires v.difficulty <= 255 && Mirrored(l0, m.node) && Kept(v, l0, m) && S.BurnKeyUnknown(v) && Unmined(m.inFlight)
    requires PlainEvents(events) && UnminedEvents(events) && ExecAll(v, m, events).refused == {}
    ensures Mirrored(l0, ExecAll(v, m, events).node) && Unmined(ExecAll(v, m, events).inFlight)
  {
    if events != [] {
      var before, e := events[..|events| - 1], events[|events| - 1];
      SplitLast(events);
      RefusedGrow(v, ExecAll(v, m, before), e);
      RunsStayMirrored(v, l0, m, before);
      RunsKeepAccounts(v, l0, m, before);
      StepKeepsMirrored(v, l0, ExecAll(v, m, before), e);
      StepKeepsUnmined(v, ExecAll(v, m, before), e);
    }
  }

  /** Without rewards and late failures, an orderly DAG repairs the ledger exactly, whatever the hash map's order. */
  lemma RepairRestoresOrderlyRuns(v: Validator, m: Machine, events: seq<Event>, back: seq<Transaction>, list: seq<Transaction>)
    requires v.difficulty <= 255 && S.BurnKeyUnknown(v) && Fresh(m) && Total(m.node.ledger) <= U64_MAX
    requires PlainEvents(events) && HashedIds(events) && UnminedEvents(events)
    requires Restart.NeverFailsLate(v, m, events) && Restart.ReadBack(ExecAll(v, m, events).disk, back)
    requires ListsStore(R.Rebuild(D.EMPTY_DAG, back).dag.transactions, list)
    requires Orderly(R.Rebuild(D.EMPTY_DAG, back).dag.transactions, m.node.ledger, list)
    ensures ReplayFrom(m.node.ledger, list).pending == []
    ensures SameAccounts(ExecAll(v, m, events).node.ledger, Repaired(m.node.ledger, list))
  {
    var l0, node := m.node.ledger, ExecAll(v, m, events).node;
    NothingIsLost(v, m, events, back);
    FreshIsKept(v, m);
    RunsKeepAccounts(v, l0, m, events);
    assert Mirrored(l0, m.node) by {
      assert InsertionOrder(m.node.dag.transactions, []) && MirroredBy(l0, [], l0);
    }
    RunsStayMirrored(v, l0, m, events);
    StoreIsAmple(v, l0, node.dag.transactions, list);
    var order: seq<Transaction> :| InsertionOrder(node.dag.transactions, order) && MirroredBy(l0, order, node.ledger);
    ListingIsOrder(node.dag.transactions, order, list);
    RepairOfMirrored(node.dag.transactions, l0, order, node.ledger, list);
  }

  lemma RepairOfMirrored(txs: Transactions, l0: LedgerState, order: seq<Transaction>, live: LedgerState, list: seq<Transaction>)
    requires InsertionOrder(txs, order) && MirroredBy(l0, order, live) && Ample(l0, list)
    requires multiset(list) == multiset(order) && Orderly(txs, l0, list)
    ensures ReplayFrom(l0, list).pending == []
    ensures SameAccounts(live, Repaired(l0, list))
  {
    OrderlyListFinishes(txs, l0, order, list);
    ReplayEndsStuck(l0, list);
    var moved := ReplayFrom(l0, list).moved;
    assert multiset(moved) == multiset(order);
    PaidLikewise(l0, moved, order);
  }

  lemma OrderlyListFinishes(txs: Transactions, l0: LedgerState, order: seq<Transaction>, list: seq<Transaction>)
    requires InsertionOrder(txs, order) && Playable(l0, order) && Ample(l0, list)
    requires multiset(list) == multiset(order) && Orderly(txs, l0, list)
    ensures Finishes(l0, list) && Ample(l0, order)
  {
    SameMembers(list, order);
    OrderlyIgnoresOrder(txs, l0, list, order);
    OrderlyMeansNoDeadEnd(txs, l0, order);
  }

  lemma OrderlyIgnoresOrder(txs: Transactions, l: LedgerState, xs: seq<Transaction>, ys: seq<Transaction>)
    requires multiset(xs) == multiset(ys) && Among(ys, xs) && Orderly(txs, l, xs)
    ensures Orderly(txs, l, ys)
  {
    forall a, b | a in ys && b in ys && a != b && a.sender == b.sender
      ensures Spent(ys, a.sender) <= Balance(l, a.sender) || StrictAncestor(txs, a.id, b.id) || StrictAncestor(txs, b.id, a.id)
    {
      SpentIgnoresOrder(xs, ys, a.sender);
    }
  }

  /** Two playable listings of the same transactions lead to the same accounts. */
  lemma PaidLikewise(l0: LedgerState, xs: seq<Transaction>, ys: seq<Transaction>)
    requires Playable(l0, xs) && Playable(l0, ys) && multiset(xs) == multiset(ys)
    requires OrdinaryParties(ys) && l0.nonces == map[] && BurnTracked(l0)
    ensures SameAccounts(Paid(l0, ys), Recount(Paid(l0, xs)))
  {
    SameMembers(xs, ys);
    PaidBooks(l0, xs);
    PaidBooks(l0, ys);
    SameBooks(l0, xs, ys);
  }

  /** The same balances and nonces, and the same fees burned. */
  ghost predicate SameAccounts(live: LedgerState, repaired: LedgerState) {
    && (forall a :: Balance(repaired, a) == Balance(live, a) && Nonce(repaired, a) == Nonce(live, a))
    && repaired.totalFeesBurned == live.totalFeesBurned
    && Total(repaired) == Total(live)
  }

  lemma SameBooks(l: LedgerState, xs: seq<Transaction>, ys: seq<Transaction>)
    requires multiset(xs) == multiset(ys)
    ensures forall a :: Net(xs, a) == Net(ys, a) && HighestNonce(xs, a) == HighestNonce(ys, a)
  {
    forall a ensures Net(xs, a) == Net(ys, a) && HighestNonce(xs, a) == HighestNonce(ys, a) {
      BooksIgnoreOrder(xs, ys, a);
    }
  }
}
