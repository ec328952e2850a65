/** Whole runs of interleaved calls, and the lockstep of nonces and DAG. */
module Runs {
  import opened Types
  import opened Validation
  import opened Processor
  import opened Consensus
  import D = Dag
  import L = LedgerModel
  import M = MempoolModel

  /** A node during one process lifetime, the calls validated but not yet written, the transactions that reached
    * the disk, and a log: the transactions the mempool refused, the rewards paid for good, and the rewards
    * settled in refused calls. */
  datatype Machine = Machine(
    node: NodeState,
    inFlight: seq<Call>,
    disk: Transactions,
    refused: set<Transaction>,
    earned: seq<PendingReward>,
    forfeited: seq<PendingReward>)

  /** Any number of calls may validate before any of them writes; `stored` tells whether the
    * transaction of a successful call reaches the disk. The miner takes the first pooled transaction
    * and offers it to the DAG once more. */
  datatype Event =
    | Begin(call: Call)
    | Write(slot: nat, env: Environment, stored: bool)
    | SetMinFee(fee: u64)
    | Mine

  /** The event is a write that takes place. */
  ghost predicate Writes(m: Machine, e: Event) {
    e.Write? && e.slot < |m.inFlight| && OrderOk(m.node, m.inFlight[e.slot], e.env)
  }

  ghost function Exec(v: Validator, m: Machine, e: Event): Machine
    requires v.difficulty <= 255
  {
    match e
    case Begin(c) =>
      if ValidateFull(v, c.tx, m.node.dag.transactions, m.node.ledger, c.minFee).Some? then m
      else m.(inFlight := m.inFlight + [c])
    case Write(slot, env, stored) =>
      if !Writes(m, e) then m
      else
        var c := m.inFlight[slot];
        var settled := WriteSettles(m.node, c, env);
        Machine(
          WritePhase(m.node, c, env).0,
          m.inFlight[..slot] + m.inFlight[slot + 1..],
          if WritePhase(m.node, c, env).1.Ok? && stored then m.disk[c.tx.id := c.tx] else m.disk,
          if Refused(m.node, c, env) then m.refused + {c.tx} else m.refused,
          if Refused(m.node, c, env) then m.earned else m.earned + settled,
          if Refused(m.node, c, env) then m.forfeited + settled else m.forfeited)
    case SetMinFee(fee) =>
      m.(node := m.node.(mempool := m.node.mempool.(minFee := fee)))
    case Mine =>
      if m.node.mempool.queue == [] then m else m.(node := MineFirst(m.node))
  }

  function MineFirst(s: NodeState): NodeState
    requires s.mempool.queue != []
  {
    s.(mempool := s.mempool.(queue := s.mempool.queue[1..]), dag := D.Insert(s.dag, s.mempool.queue[0]))
  }

  ghost function ExecAll(v: Validator, m: Machine, events: seq<Event>): Machine
    requires v.difficulty <= 255
  {
    if events == [] then m
    else Exec(v, ExecAll(v, m, events[..|events| - 1]), events[|events| - 1])
  }

  /** Transaction ids are hashes, never all zero. */
  ghost predicate HashedIds(events: seq<Event>) {
    forall e :: e in events && e.Begin? ==> e.call.tx.id != GENESIS
  }

  ghost predicate HashedCalls(calls: seq<Call>) {
    forall c :: c in calls ==> c.tx.id != GENESIS
  }

  // ---- the pool ----

  /** Whatever waits in the pool is stored already. */
  ghost predicate Pooled(s: NodeState) {
    forall tx :: tx in s.mempool.queue ==> tx.id in s.dag.transactions
  }

  lemma AddedToPool(pool: M.MempoolState, tx: Transaction)
    ensures forall t :: t in M.Add(pool, tx).queue ==> t in pool.queue || t == tx
  {
  }

  lemma WriteKeepsPooled(s: NodeState, c: Call, env: Environment)
    requires Pooled(s) && OrderOk(s, c, env)
    ensures Pooled(WritePhase(s, c, env).0)
  {
    AddedToPool(s.mempool, c.tx);
  }

  /** So the miner's insertion is always refused as a duplicate, and the DAG stays as it is. */
  lemma MiningInsertsNothing(s: NodeState)
    requires Pooled(s) && s.mempool.queue != []
    ensures D.InsertError(s.dag.transactions, s.mempool.queue[0]) == Some(D.Duplicate(s.mempool.queue[0].id))
    ensures MineFirst(s) == s.(mempool := s.mempool.(queue := s.mempool.queue[1..])) && Pooled(MineFirst(s))
  {
    assert s.mempool.queue[0] in s.mempool.queue;
  }

  /** Only the pool differs. */
  ghost predicate OnlyPoolDiffers(s: NodeState, s': NodeState) {
    s'.dag == s.dag && s'.ledger == s.ledger && s'.consensus == s.consensus
  }

  lemma StepKeepsPooled(v: Validator, m: Machine, e: Event)
    requires v.difficulty <= 255 && Pooled(m.node)
    ensures Pooled(Exec(v, m, e).node)
    ensures !Writes(m, e) ==> OnlyPoolDiffers(m.node, Exec(v, m, e).node)
  {
    if Writes(m, e) {
      WriteKeepsPooled(m.node, m.inFlight[e.slot], e.env);
    } else if e.Mine? && m.node.mempool.queue != [] {
      MiningInsertsNothing(m.node);
    }
  }

  /** Over every run, every pooled transaction is stored. */
  lemma {:induction false} RunsStayPooled(v: Validator, m: Machine, events: seq<Event>)
    requires v.difficulty <= 255 && Pooled(m.node)
    ensures Pooled(ExecAll(v, m, events).node)
  {
    if events != [] {
      RunsStayPooled(v, m, events[..|events| - 1]);
      StepKeepsPooled(v, ExecAll(v, m, events[..|events| - 1]), events[|events| - 1]);
    }
  }

  // ---- the lockstep ----

  /** The senders of refused transactions. */
  function Senders(refused: set<Transaction>): set<Address> {
    set tx | tx in refused :: tx.sender
  }

  lemma OneMoreSender(refused: set<Transaction>, tx: Transaction)
    ensures Senders(refused + {tx}) == Senders(refused) + {tx.sender}
  {
    forall a | a in Senders(refused) + {tx.sender} ensures a in Senders(refused + {tx}) {
      if a == tx.sender {
        assert tx in refused + {tx};
      } else {
        var r :| r in refused && r.sender == a;
        assert r in refused + {tx};
      }
    }
  }

  function Debt(refused: set<Address>, a: Address): nat {
    if a in refused then 1 else 0
  }

  /** The DAG holds exactly the nonces 1 .. n of a sender with ledger nonce n,
    * and n + 1 as well when the mempool refused one of its calls. */
  ghost predicate Lockstep(txs: Transactions, l: L.LedgerState, refused: set<Address>) {
    forall a, k: u64 :: a != FAUCET_ADDRESS ==>
      (D.HasTransactionWithNonce(txs, a, k) <==> 1 <= k <= L.Nonce(l, a) + Debt(refused, a))
  }

  ghost predicate InStep(m: Machine) {
    && D.ValidDag(m.node.dag)
    && Lockstep(m.node.dag.transactions, m.node.ledger, Senders(m.refused))
    && Pooled(m.node)
    && HashedCalls(m.inFlight)
  }

  lemma InsertAddsNonce(txs: Transactions, tx: Transaction, a: Address, k: u64)
    requires tx.id !in txs
    ensures D.HasTransactionWithNonce(txs[tx.id := tx], a, k)
            <==> D.HasTransactionWithNonce(txs, a, k) || (a == tx.sender && k == tx.accountNonce)
  {
    var txs' := txs[tx.id := tx];
    if D.HasTransactionWithNonce(txs, a, k) {
      var id :| id in txs && txs[id].sender == a && txs[id].accountNonce == k;
      assert id in txs' && txs'[id] == txs[id];
    }
    if a == tx.sender && k == tx.accountNonce {
      assert tx.id in txs' && txs'[tx.id] == tx;
    }
  }

  lemma {:induction false} SettlingKeepsNonces(l: L.LedgerState, c: ConsensusValue, order: seq<BlockId>,
                                               queue: map<BlockId, PendingReward>)
    requires forall id :: id in order ==> id in queue
    ensures SettleAll(l, c, order, queue).0.nonces == l.nonces
  {
    if order != [] {
      assert forall id :: id in order[..|order| - 1] ==> id in order;
      SettlingKeepsNonces(l, c, order[..|order| - 1], queue);
    }
  }

  /** What a write phase leaves behind in the DAG and in the nonces. */
  lemma WriteOutcome(s: NodeState, c: Call, env: Environment)
    requires OrderOk(s, c, env)
    ensures var (s', r) := WritePhase(s, c, env);
            if EarlyError(s, c.tx, env).Some? then s' == s && r.Err? && !r.error.MempoolFailed?
            else
              && s'.dag == D.Insert(s.dag, c.tx)
              && s'.ledger.nonces == if r.Err? && r.error.MempoolFailed? then s.ledger.nonces
                                     else L.CommitNonce(s.ledger, c.tx.sender, c.tx.accountNonce).nonces
  {
    if EarlyError(s, c.tx, env).None? && c.miner.Some? {
      var queued := Queued(s.consensus, c, c.miner.value);
      SettlingKeepsNonces(Recorded(s, c.tx).ledger, queued, env.order, queued.pendingRewards);
    }
  }

  /** A sender owes the DAG a nonce exactly when its next transaction must clash. */
  lemma NextNonceClashes(m: Machine, a: Address, next: u64)
    requires InStep(m) && a != FAUCET_ADDRESS && next == L.Nonce(m.node.ledger, a) + 1
    ensures D.HasSenderConflict(m.node.dag.transactions, a, next) <==> a in Senders(m.refused)
  {
  }

  /** Whatever passes the early steps carries the next nonce and clashes with nothing. */
  lemma EarlyPassIsNext(s: NodeState, tx: Transaction, env: Environment)
    requires EarlyError(s, tx, env).None? && tx.sender != FAUCET_ADDRESS
    ensures tx.accountNonce == L.Nonce(s.ledger, tx.sender) + 1
    ensures !D.HasSenderConflict(s.dag.transactions, tx.sender, tx.accountNonce)
  {
  }

  lemma RefusedCannotPass(m: Machine, c: Call, env: Environment)
    requires InStep(m) && c.tx.sender in Senders(m.refused) && c.tx.sender != FAUCET_ADDRESS
    ensures EarlyError(m.node, c.tx, env).Some?
  {
    if EarlyError(m.node, c.tx, env).None? {
      EarlyPassIsNext(m.node, c.tx, env);
      NextNonceClashes(m, c.tx.sender, c.tx.accountNonce);
    }
  }

  lemma LockstepGrows(txs: Transactions, tx: Transaction, l: L.LedgerState, l': L.LedgerState,
                      refused: set<Address>, refused': set<Address>)
    requires Lockstep(txs, l, refused) && tx.id !in txs && L.NonceError(l, tx.sender, tx.accountNonce).None?
    requires tx.sender != FAUCET_ADDRESS ==> tx.sender !in refused
    requires || (refused' == refused && l'.nonces == L.CommitNonce(l, tx.sender, tx.accountNonce).nonces)
             || (refused' == refused + {tx.sender} && l'.nonces == l.nonces)
    ensures Lockstep(txs[tx.id := tx], l', refused')
  {
    var txs' := txs[tx.id := tx];
    forall a, k: u64 | a != FAUCET_ADDRESS
      ensures D.HasTransactionWithNonce(txs', a, k) <==> 1 <= k <= L.Nonce(l', a) + Debt(refused', a)
    {
      InsertAddsNonce(txs, tx, a, k);
      assert D.HasTransactionWithNonce(txs, a, k) <==> 1 <= k <= L.Nonce(l, a) + Debt(refused, a);
    }
  }

  lemma WriteKeepsLockstep(m: Machine, c: Call, env: Environment, refused: set<Address>)
    requires InStep(m) && c.tx.id != GENESIS && OrderOk(m.node, c, env)
    requires refused == if Refused(m.node, c, env) then Senders(m.refused) + {c.tx.sender} else Senders(m.refused)
    ensures var s' := WritePhase(m.node, c, env).0;
            D.ValidDag(s'.dag) && Lockstep(s'.dag.transactions, s'.ledger, refused)
  {
    WriteOutcome(m.node, c, env);
    if EarlyError(m.node, c.tx, env).None? {
      D.InsertKeepsValid(m.node.dag, c.tx);
      if c.tx.sender in Senders(m.refused) && c.tx.sender != FAUCET_ADDRESS {
        RefusedCannotPass(m, c, env);
      } else {
        LockstepGrows(m.node.dag.transactions, c.tx, m.node.ledger, WritePhase(m.node, c, env).0.ledger, Senders(m.refused), refused);
      }
    }
  }

  lemma StepKeepsLockstep(v: Validator, m: Machine, e: Event)
    requires v.difficulty <= 255 && InStep(m) && (e.Begin? ==> e.call.tx.id != GENESIS)
    ensures InStep(Exec(v, m, e))
  {
    StepKeepsPooled(v, m, e);
    if Writes(m, e) {
      assert m.inFlight[e.slot] in m.inFlight;
      OneMoreSender(m.refused, m.inFlight[e.slot].tx);
      WriteKeepsLockstep(m, m.inFlight[e.slot], e.env, Senders(Exec(v, m, e).refused));
    }
  }

  /** Whatever calls interleave and however each ends, nonces and DAG stay in step. */
  lemma {:induction false} RunsStayInStep(v: Validator, m: Machine, events: seq<Event>)
    requires v.difficulty <= 255 && InStep(m) && HashedIds(events)
    ensures InStep(ExecAll(v, m, events))
  {
    if events != [] {
      var before := events[..|events| - 1];
      assert forall e :: e in before ==> e in events;
      RunsStayInStep(v, m, before);
      StepKeepsLockstep(v, ExecAll(v, m, before), events[|events| - 1]);
    }
  }

  lemma EmptyNodeIsInStep(m: Machine)
    requires m.node.dag == D.EMPTY_DAG && m.node.ledger.nonces == map[] && m.node.mempool.queue == []
    requires m.inFlight == [] && m.refused == {}
    ensures InStep(m)
  {
    D.EmptyDagIsValid();
  }

  /** No call lowers anybody's nonce, the faucet's included, however it ends. */
  lemma NoncesNeverDecrease(s: NodeState, c: Call, env: Environment, a: Address)
    requires OrderOk(s, c, env)
    ensures L.Nonce(s.ledger, a) <= L.Nonce(WritePhase(s, c, env).0.ledger, a)
  {
    WriteOutcome(s, c, env);
  }

  ghost predicate SameSent(txs: Transactions, txs': Transactions, a: Address) {
    && (forall id :: id in txs && txs[id].sender == a ==> id in txs' && txs'[id] == txs[id])
    && (forall id :: id in txs' && txs'[id].sender == a ==> id in txs && txs[id] == txs'[id])
  }

  lemma OthersChangeNothing(d: D.DagState, tx: Transaction, a: Address)
    requires tx.sender != a
    ensures SameSent(d.transactions, D.Insert(d, tx).transactions, a)
  {
  }

  /** The nonce of a and its stored transactions are the same in both. */
  ghost predicate SameAccount(m: Machine, m': Machine, a: Address) {
    var txs, txs' := m.node.dag.transactions, m'.node.dag.transactions;
    && L.Nonce(m'.node.ledger, a) == L.Nonce(m.node.ledger, a)
    && SameSent(txs, txs', a)
  }

  lemma StuckStep(v: Validator, m: Machine, e: Event, a: Address)
    requires v.difficulty <= 255 && InStep(m) && a in Senders(m.refused) && a != FAUCET_ADDRESS
    ensures a in Senders(Exec(v, m, e).refused) && SameAccount(m, Exec(v, m, e), a)
  {
    StepKeepsPooled(v, m, e);
    if Writes(m, e) {
      var c := m.inFlight[e.slot];
      WriteOutcome(m.node, c, e.env);
      if c.tx.sender == a {
        RefusedCannotPass(m, c, e.env);
      } else {
        OthersChangeNothing(m.node.dag, c.tx, a);
      }
    }
  }

  lemma SameAccountThroughout(m0: Machine, m1: Machine, m2: Machine, a: Address)
    requires SameAccount(m0, m1, a) && SameAccount(m1, m2, a)
    ensures SameAccount(m0, m2, a)
  {
  }

  /** Once the mempool has refused a sender, nothing of that sender is ever accepted again. */
  lemma {:induction false} RefusedSendersAreStuck(v: Validator, m: Machine, events: seq<Event>, a: Address)
    requires v.difficulty <= 255 && InStep(m) && HashedIds(events)
    requires a in Senders(m.refused) && a != FAUCET_ADDRESS
    ensures a in Senders(ExecAll(v, m, events).refused) && SameAccount(m, ExecAll(v, m, events), a)
  {
    if events != [] {
      var before := events[..|events| - 1];
      assert forall e :: e in before ==> e in events;
      RefusedSendersAreStuck(v, m, before, a);
      RunsStayInStep(v, m, before);
      StuckStep(v, ExecAll(v, m, before), events[|events| - 1], a);
      SameAccountThroughout(m, ExecAll(v, m, before), ExecAll(v, m, events), a);
    }
  }

  /** The stored transactions bound every nonce, so last nonce + 1 cannot leave 64 bits
    * while fewer than 2^64 - 1 transactions are stored. */
  lemma NonceIsBoundedByStore(m: Machine, a: Address)
    requires InStep(m) && a != FAUCET_ADDRESS
    ensures L.Nonce(m.node.ledger, a) <= |m.node.dag.transactions|
  {
    var n := L.Nonce(m.node.ledger, a);
    assert forall k: u64 :: 1 <= k <= n ==> D.HasTransactionWithNonce(m.node.dag.transactions, a, k);
    EnoughTransactions(m.node.dag.transactions, a, n);
  }

  lemma {:induction false} EnoughTransactions(txs: Transactions, a: Address, n: u64)
    requires forall k: u64 :: 1 <= k <= n ==> D.HasTransactionWithNonce(txs, a, k)
    ensures n <= |txs|
    decreases n
  {
    if n > 0 {
      assert D.HasTransactionWithNonce(txs, a, n);
      var id :| id in txs && txs[id].sender == a && txs[id].accountNonce == n;
      var rest := txs - {id};
      forall k: u64 | 1 <= k <= n - 1 ensures D.HasTransactionWithNonce(rest, a, k) {
        assert D.HasTransactionWithNonce(txs, a, k);
        var j :| j in txs && txs[j].sender == a && txs[j].accountNonce == k;
        assert j in rest && rest[j] == txs[j];
      }
      EnoughTransactions(rest, a, n - 1);
      assert rest.Keys == txs.Keys - {id};
      assert |rest.Keys| == |txs.Keys| - 1;
    }
  }

  // ---- nothing unchecked gets in ----

  /** Every transaction in flight or stored meets the numeric work threshold and carries a valid signature, the key of
    * its sender and a total that fits. */
  ghost predicate Vetted(v: Validator, m: Machine)
    requires v.difficulty <= 255
  {
    && (forall c :: c in m.inFlight ==> Authentic(v, c.tx))
    && (forall id :: id in m.node.dag.transactions ==> Authentic(v, m.node.dag.transactions[id]))
  }

  lemma StepKeepsVetted(v: Validator, m: Machine, e: Event)
    requires v.difficulty <= 255 && Vetted(v, m) && Pooled(m.node)
    ensures Vetted(v, Exec(v, m, e))
  {
    StepKeepsPooled(v, m, e);
    if Writes(m, e) {
      assert m.inFlight[e.slot] in m.inFlight;
      WriteOutcome(m.node, m.inFlight[e.slot], e.env);
    } else if e.Begin? {
      PureExactly(v, e.call.tx);
    }
  }

  /** Only authentic transactions are ever stored, whatever interleaves. */
  lemma {:induction false} OnlyVettedTransactionsAreStored(v: Validator, m: Machine, events: seq<Event>)
    requires v.difficulty <= 255 && Vetted(v, m) && Pooled(m.node)
    ensures Vetted(v, ExecAll(v, m, events))
  {
    if events != [] {
      RunsStayPooled(v, m, events[..|events| - 1]);
      OnlyVettedTransactionsAreStored(v, m, events[..|events| - 1]);
      StepKeepsVetted(v, ExecAll(v, m, events[..|events| - 1]), events[|events| - 1]);
    }
  }
}
