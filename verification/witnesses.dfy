/** Concrete runs that reach the states the other theorems warn about. */
module Witnesses {
  import opened Types
  import opened Validation
  import opened Processor
  import opened Consensus
  import opened Runs
  import opened Settlement
  import D = Dag
  import L = LedgerModel
  import M = MempoolModel
  import P = ProofOfWork
  import E = Emission
  import R = Rebuilding
  import Replaying
  import DeadEnds
  import Repair
  import Restart

  // ---- who runs what ----

  /** Every nonce is work enough, and everybody but the burn address can sign. */
  ghost predicate Lenient(v: Validator) {
    && v.difficulty <= 255
    && (forall tx, nonce :: P.MeetsDifficulty(v.oracles.powHash(tx, nonce), v.difficulty))
    && (forall tx :: v.oracles.signatureOk(tx) <==> tx.sender != FEE_BURN_ADDRESS)
  }

  function Zeros(n: nat): seq<byte> {
    if n == 0 then [] else Zeros(n - 1) + [0]
  }

  lemma {:induction false} ZerosAreZero(n: nat)
    ensures |Zeros(n)| == n && P.BigEndian(Zeros(n)) == 0
  {
    if n > 0 {
      ZerosAreZero(n - 1);
      assert Zeros(n)[..n - 1] == Zeros(n - 1);
    }
  }

  /** For every difficulty there is one: its hashes are all zero. */
  lemma LenientExists(difficulty: nat)
    requires difficulty <= 255
    ensures exists v :: Lenient(v) && v.difficulty == difficulty
  {
    var v := Validator(difficulty, Oracles((tx: Transaction, nonce: u64) => Zeros(32), (tx: Transaction) => tx.sender != FEE_BURN_ADDRESS));
    ZerosAreZero(32);
    assert Lenient(v);
  }

  /** A validator, the public key of somebody who pays, a miner, and a fresh node with a pool of some capacity. */
  datatype Setup = Setup(v: Validator, key: seq<byte>, miner: Address, capacity: nat, start: Machine)

  function Owner(u: Setup): Address {
    Key(P.BigEndian(u.key))
  }

  ghost function Base(u: Setup): Baseline {
    Baseline(u.start.node.ledger.totalSupply, L.Total(u.start.node.ledger))
  }

  /** What the owner can spend on fees. */
  function Funds(u: Setup): u64 {
    L.Balance(u.start.node.ledger, Owner(u))
  }

  /** The pool asks for the minimum fee it starts with. */
  ghost predicate Ready(u: Setup) {
    && Lenient(u.v) && BurnKeyUnknown(u.v)
    && |u.key| == 32 && Owner(u) != FEE_BURN_ADDRESS && u.miner != FEE_BURN_ADDRESS
    && Repair.Fresh(u.start) && Roomy(Base(u))
    && u.start.node.mempool == M.MempoolState([], u.capacity, 1)
  }

  /** The number has at most n bytes. */
  predicate Fits(value: nat, n: nat) {
    if n == 0 then value == 0 else Fits(value / 256, n - 1)
  }

  lemma {:induction false} ByteExists(n: nat) returns (b: byte)
    requires n < 256
    ensures b as nat == n
  {
    if n == 0 {
      b := 0;
    } else {
      var c := ByteExists(n - 1);
      b := c + 1;
    }
  }

  lemma {:induction false} Spelling(value: nat, n: nat) returns (bytes: seq<byte>)
    requires Fits(value, n)
    ensures |bytes| == n && P.BigEndian(bytes) == value
  {
    if n == 0 {
      bytes := [];
    } else {
      var rest := Spelling(value / 256, n - 1);
      var last := ByteExists(value % 256);
      bytes := rest + [last];
    }
  }

  lemma FounderFits()
    ensures Fits(FOUNDER_ADDRESS.value, 32)
  {
    assert Fits(0x3d17ace653283dbd, 8);
    assert Fits(0x3d17ace653283dbd9aeba6e0d4684795, 16);
    assert Fits(0x3d17ace653283dbd9aeba6e0d4684795a800e9da952cb682, 24);
    assert Fits(0x3d17ace653283dbd9aeba6e0d4684795a800e9da952cb682bb67cd970cbe1b3e, 32);
  }

  lemma FounderHasAKey()
    ensures exists key: seq<byte> :: |key| == 32 && Key(P.BigEndian(key)) == FOUNDER_ADDRESS
  {
    FounderFits();
    var key := Spelling(FOUNDER_ADDRESS.value, 32);
    assert |key| == 32 && Key(P.BigEndian(key)) == FOUNDER_ADDRESS;
  }

  /** The node as it first starts: the genesis balances, and a pool of 1000 that asks for a fee of 1. */
  function FirstStart(): Machine {
    var node := NodeState(D.EMPTY_DAG, Replaying.GENESIS_LEDGER, INITIAL_CONSENSUS, M.MempoolState([], 1000, 1));
    Machine(node, [], map[], {}, [], [])
  }

  /** It is ready, with the founder paying the fees. */
  lemma FirstStartIsReady(v: Validator, miner: Address)
    requires Lenient(v) && miner != FEE_BURN_ADDRESS
    ensures exists key :: Ready(Setup(v, key, miner, 1000, FirstStart())) && Funds(Setup(v, key, miner, 1000, FirstStart())) == 100_000_000_000
  {
    Replaying.GenesisTotal();
    GenesisLeavesRoom(Replaying.GENESIS_LEDGER);
    FounderHasAKey();
    var key: seq<byte> :| |key| == 32 && Key(P.BigEndian(key)) == FOUNDER_ADDRESS;
    var u := Setup(v, key, miner, 1000, FirstStart());
    assert Owner(u) == FOUNDER_ADDRESS;
    assert Ready(u) && Funds(u) == 100_000_000_000;
  }

  /** The n-th payment of the key's owner to itself, on top of the one before: it only costs its fee. */
  function Payment(u: Setup, n: u64): Transaction
    requires n >= 1
  {
    Transaction(Hash(n), Parents(Hash(n - 1), GENESIS), Owner(u), Owner(u), 0, 1, 0, 0, n, 0.0, [], u.key)
  }

  function CallOf(u: Setup, n: u64): Call
    requires n >= 1
  {
    Call(Payment(u, n), 1, Some(u.miner), Some(Hash(n)))
  }

  lemma PaymentIsPure(u: Setup, n: u64)
    requires Ready(u) && n >= 1
    ensures ValidatePure(u.v, Payment(u, n)).None?
  {
    assert Payment(u, n).publicKey[..32] == u.key;
  }

  // ---- one call after another ----

  ghost predicate Paid(txs: Transactions, u: Setup, n: u64) {
    && (forall id {:trigger id in txs} :: id in txs <==> 1 <= id.value <= n)
    && (forall id {:trigger txs[id]} :: id in txs ==> txs[id] == Payment(u, id.value))
  }

  /** What the owner still has, and what the pool holds. */
  ghost predicate Affords(u: Setup, s: NodeState, n: u64) {
    && L.Balance(s.ledger, Owner(u)) + n >= Funds(u)
    && s.mempool.maxSize == u.capacity && s.mempool.minFee == 1 && |s.mempool.queue| == n
    && forall tx :: tx in s.mempool.queue ==> tx.fee == 1
  }

  /** After n such calls, all of them accepted. */
  ghost predicate Quiet(u: Setup, m: Machine, n: u64) {
    && Paid(m.node.dag.transactions, u, n)
    && L.Nonce(m.node.ledger, Owner(u)) == n
    && m.node.consensus.currentHeight == n
    && Affords(u, m.node, n)
    && m.inFlight == [] && m.refused == {} && m.forfeited == [] && m.disk == m.node.dag.transactions
    && SoundRun(Base(u), m)
  }

  lemma StartIsQuiet(u: Setup)
    requires Ready(u)
    ensures Quiet(u, u.start, 0)
  {
    FreshNodeIsSound(u.start);
  }

  lemma NextPaymentFits(txs: Transactions, u: Setup, n: u64)
    requires n >= 1 && Paid(txs, u, n - 1)
    ensures ValidateDag(Payment(u, n), txs).None?
  {
    forall id | id in txs ensures txs[id].parents != Parents(Hash(n - 1), GENESIS) && txs[id].accountNonce != n {
      assert txs[id] == Payment(u, id.value);
    }
  }

  lemma NextPaymentIsStored(txs: Transactions, u: Setup, n: u64)
    requires n >= 1 && Paid(txs, u, n - 1)
    ensures Paid(txs[Hash(n) := Payment(u, n)], u, n)
  {
    var txs' := txs[Hash(n) := Payment(u, n)];
    forall id ensures id in txs' <==> 1 <= id.value <= n {
      assert id in txs' <==> id in txs || id == Hash(n);
      assert id == Hash(id.value);
    }
    forall id | id in txs' ensures txs'[id] == Payment(u, id.value) {
      if id != Hash(n) {
        assert txs[id] == Payment(u, id.value);
      }
    }
  }

  /** The next payment passes the gate and every early step. */
  lemma NextCallPasses(u: Setup, m: Machine, n: u64, env: Environment)
    requires Ready(u) && 1 <= n <= Funds(u) && Quiet(u, m, n - 1)
    requires env.dagFree && env.ledgerFree && env.mempoolFree
    ensures ValidateFull(u.v, Payment(u, n), m.node.dag.transactions, m.node.ledger, 1).None?
    ensures EarlyError(m.node, Payment(u, n), env).None?
  {
    PaymentIsPure(u, n);
    NextPaymentFits(m.node.dag.transactions, u, n);
    SoundFits(Base(u), m.node, PaidTotal(m.forfeited));
    GateIsSufficient(u.v, m.node, CallOf(u, n), env);
  }

  lemma PoolAfterWrite(s: NodeState, c: Call, env: Environment)
    requires OrderOk(s, c, env) && EarlyError(s, c.tx, env).None?
    requires c.miner.Some? && QueueFailure(Advanced(s.consensus), RewardId(c)).None?
    ensures WritePhase(s, c, env).0.mempool == M.Add(s.mempool, c.tx)
  {
  }

  lemma NonceAfterWrite(s: NodeState, c: Call, env: Environment)
    requires OrderOk(s, c, env) && EarlyError(s, c.tx, env).None?
    requires c.tx.accountNonce == L.Nonce(s.ledger, c.tx.sender) + 1 && !Refused(s, c, env)
    ensures L.Nonce(WritePhase(s, c, env).0.ledger, c.tx.sender) == c.tx.accountNonce
  {
    WriteOutcome(s, c, env);
  }

  /** The fee is paid, and rewards can only add. */
  lemma FeeAfterWrite(s: NodeState, c: Call, env: Environment)
    requires OrderOk(s, c, env) && EarlyError(s, c.tx, env).None? && !Refused(s, c, env)
    requires c.tx.sender == c.tx.receiver != FEE_BURN_ADDRESS
    ensures L.Balance(WritePhase(s, c, env).0.ledger, c.tx.sender) + c.tx.fee >= L.Balance(s.ledger, c.tx.sender)
  {
    L.TransferMovesMoney(s.ledger, c.tx.sender, c.tx.receiver, c.tx.amount, c.tx.fee, c.tx.sender);
    Repair.WritePaysExactly(s, c, env);
  }

  /** What the write of the next call leaves, whether or not the pool refuses it. */
  ghost predicate Written(u: Setup, s: NodeState, n: u64, env: Environment)
    requires n >= 1
  {
    var c := CallOf(u, n);
    && env.dagFree && env.ledgerFree && env.mempoolFree && env.saved
    && OrderOk(s, c, env) && EarlyError(s, c.tx, env).None?
    && var (s', r) := WritePhase(s, c, env);
       && Paid(s'.dag.transactions, u, n)
       && s'.dag.transactions == s.dag.transactions[Hash(n) := c.tx]
       && s'.consensus.currentHeight == n
       && s'.mempool == M.Add(s.mempool, c.tx)
       && PaysTheFinalOne(WriteSettles(s, c, env), n)
       && (Refused(s, c, env) <==> M.AddFailure(s.mempool, c.tx).Some?)
       && if Refused(s, c, env) then s'.ledger == s.ledger
          else r.Ok? && L.Nonce(s'.ledger, Owner(u)) == n && L.Balance(s'.ledger, Owner(u)) + 1 >= L.Balance(s.ledger, Owner(u))
  }

  lemma NextWrite(u: Setup, m: Machine, n: u64) returns (env: Environment)
    requires Ready(u) && 1 <= n <= Funds(u) && Quiet(u, m, n - 1)
    ensures Written(u, m.node, n, env)
  {
    var c := CallOf(u, n);
    env := SomeOrder(m.node, c, Environment(true, true, true, [], true));
    NextCallPasses(u, m, n, env);
    WriteSettlesTheFinalOne(Base(u), m.node, c, env, PaidTotal(m.forfeited));
    WriteOutcome(m.node, c, env);
    NextPaymentIsStored(m.node.dag.transactions, u, n);
    PoolAfterWrite(m.node, c, env);
    RollbackIsExact(m.node, c, env);
    if !Refused(m.node, c, env) {
      NonceAfterWrite(m.node, c, env);
      FeeAfterWrite(m.node, c, env);
    }
  }

  // ---- calls that are written as soon as they are validated ----

  ghost function After(v: Validator, m: Machine, c: Call, env: Environment, stored: bool): Machine
    requires v.difficulty <= 255
  {
    Exec(v, Exec(v, m, Begin(c)), Write(0, env, stored))
  }

  lemma BeginThenWrite(v: Validator, m: Machine, c: Call, env: Environment, stored: bool)
    requires v.difficulty <= 255 && m.inFlight == [] && OrderOk(m.node, c, env)
    requires ValidateFull(v, c.tx, m.node.dag.transactions, m.node.ledger, c.minFee).None?
    ensures Exec(v, m, Begin(c)) == m.(inFlight := [c])
    ensures var m' := After(v, m, c, env, stored);
            && m'.node == WritePhase(m.node, c, env).0
            && m'.inFlight == []
            && m'.disk == (if WritePhase(m.node, c, env).1.Ok? && stored then m.disk[c.tx.id := c.tx] else m.disk)
            && m'.refused == (if Refused(m.node, c, env) then m.refused + {c.tx} else m.refused)
            && m'.forfeited == (if Refused(m.node, c, env) then m.forfeited + WriteSettles(m.node, c, env) else m.forfeited)
  {
    assert m.inFlight + [c] == [c];
  }

  lemma SoundAfter(u: Setup, m: Machine, c: Call, env: Environment, stored: bool)
    requires Ready(u) && SoundRun(Base(u), m) && OrdinaryCall(c)
    ensures SoundRun(Base(u), After(u.v, m, c, env, stored))
  {
    StepKeepsSound(u.v, Base(u), m, Begin(c));
    StepKeepsSound(u.v, Base(u), Exec(u.v, m, Begin(c)), Write(0, env, stored));
  }

  lemma NextCallWrites(u: Setup, m: Machine, n: u64, env: Environment, stored: bool)
    requires Ready(u) && 1 <= n <= Funds(u) && Quiet(u, m, n - 1) && OrderOk(m.node, CallOf(u, n), env)
    ensures Exec(u.v, m, Begin(CallOf(u, n))) == m.(inFlight := [CallOf(u, n)])
    ensures After(u.v, m, CallOf(u, n), env, stored).node == WritePhase(m.node, CallOf(u, n), env).0
    ensures After(u.v, m, CallOf(u, n), env, stored).inFlight == []
    ensures After(u.v, m, CallOf(u, n), env, stored).disk
         == if WritePhase(m.node, CallOf(u, n), env).1.Ok? && stored then m.disk[Hash(n) := Payment(u, n)] else m.disk
    ensures if Refused(m.node, CallOf(u, n), env)
            then LogsRefusal(After(u.v, m, CallOf(u, n), env, stored), Payment(u, n), WriteSettles(m.node, CallOf(u, n), env))
            else LogsNothing(After(u.v, m, CallOf(u, n), env, stored))
  {
    NextCallPasses(u, m, n, Environment(true, true, true, [], true));
    BeginThenWrite(u.v, m, CallOf(u, n), env, stored);
    FirstLog(m, After(u.v, m, CallOf(u, n), env, stored), Payment(u, n), WriteSettles(m.node, CallOf(u, n), env));
  }

  lemma FirstLog(m: Machine, m': Machine, tx: Transaction, rewards: seq<PendingReward>)
    requires m.refused == {} && m.forfeited == []
    ensures m'.refused == m.refused + {tx} && m'.forfeited == m.forfeited + rewards ==> LogsRefusal(m', tx, rewards)
    ensures m'.refused == m.refused && m'.forfeited == m.forfeited ==> LogsNothing(m')
  {
    assert [] + rewards == rewards;
  }

  ghost predicate LogsRefusal(m: Machine, tx: Transaction, rewards: seq<PendingReward>) {
    m.refused == {tx} && m.forfeited == rewards
  }

  ghost predicate LogsNothing(m: Machine) {
    m.refused == {} && m.forfeited == []
  }

  lemma PoolGrows(pool: M.MempoolState, tx: Transaction)
    requires pool.minFee == 1 && |pool.queue| < pool.maxSize && tx.fee == 1
    ensures M.AddFailure(pool, tx).None? && M.Add(pool, tx) == pool.(queue := pool.queue + [tx])
  {
  }

  lemma PoolIsFull(pool: M.MempoolState, tx: Transaction)
    requires pool.minFee == 1 && 1 <= |pool.queue| == pool.maxSize && tx.fee == 1
    requires forall t :: t in pool.queue ==> t.fee == 1
    ensures M.AddFailure(pool, tx) == Some(M.Full)
  {
    assert M.LowestFee(pool.queue) == 1;
  }

  lemma OneMoreIsQuiet(u: Setup, m: Machine, n: u64) returns (env: Environment)
    requires Ready(u) && 1 <= n <= u.capacity && n <= Funds(u) && Quiet(u, m, n - 1)
    ensures Quiet(u, After(u.v, m, CallOf(u, n), env, true), n)
  {
    env := NextWrite(u, m, n);
    PoolGrows(m.node.mempool, Payment(u, n));
    NextCallWrites(u, m, n, env, true);
    SoundAfter(u, m, CallOf(u, n), env, true);
    StillAffords(u, m.node, WritePhase(m.node, CallOf(u, n), env).0, n);
  }

  lemma StillAffords(u: Setup, s: NodeState, s': NodeState, n: u64)
    requires n >= 1 && Affords(u, s, n - 1)
    requires s'.mempool == s.mempool.(queue := s.mempool.queue + [Payment(u, n)])
    requires L.Balance(s'.ledger, Owner(u)) + 1 >= L.Balance(s.ledger, Owner(u))
    ensures Affords(u, s', n)
  {
  }

  // ---- runs ----

  ghost predicate Tame(events: seq<Event>) {
    OrdinaryEvents(events) && Repair.PlainEvents(events) && HashedIds(events)
  }

  /** The run and one more call. */
  function RunOn(events: seq<Event>, c: Call, env: Environment, stored: bool): seq<Event> {
    events + [Begin(c), Write(0, env, stored)]
  }

  lemma ExecRunOn(v: Validator, m: Machine, events: seq<Event>, c: Call, env: Environment, stored: bool)
    requires v.difficulty <= 255
    ensures ExecAll(v, m, RunOn(events, c, env, stored)) == After(v, ExecAll(v, m, events), c, env, stored)
  {
    var all := RunOn(events, c, env, stored);
    assert all[..|all| - 1] == events + [Begin(c)] && (events + [Begin(c)])[..|events|] == events;
  }

  lemma TameRunOn(u: Setup, events: seq<Event>, n: u64, env: Environment, stored: bool)
    requires Tame(events) && Ready(u) && n >= 1
    ensures Tame(RunOn(events, CallOf(u, n), env, stored))
  {
  }

  /** The run is n accepted calls. */
  ghost predicate QuietRun(u: Setup, events: seq<Event>, n: u64)
    requires u.v.difficulty <= 255
  {
    Quiet(u, ExecAll(u.v, u.start, events), n) && Tame(events)
  }

  lemma RunOneMore(u: Setup, before: seq<Event>, n: u64) returns (events: seq<Event>)
    requires Ready(u) && 1 <= n <= u.capacity && n <= Funds(u) && QuietRun(u, before, n - 1)
    ensures QuietRun(u, events, n)
  {
    var env := OneMoreIsQuiet(u, ExecAll(u.v, u.start, before), n);
    events := RunOn(before, CallOf(u, n), env, true);
    ExecRunOn(u.v, u.start, before, CallOf(u, n), env, true);
    TameRunOn(u, before, n, env, true);
  }

  /** n accepted calls, for any n that the pool has room and the owner has money for. */
  lemma {:induction false} QuietRunsExist(u: Setup, n: u64)
    requires Ready(u) && n <= u.capacity && n <= Funds(u)
    ensures exists events :: QuietRun(u, events, n)
  {
    if n == 0 {
      StartIsQuiet(u);
      assert QuietRun(u, [], 0);
    } else {
      QuietRunsExist(u, n - 1);
      var before :| QuietRun(u, before, n - 1);
      var events := RunOneMore(u, before, n);
    }
  }

  // ---- a full pool ----

  /** With n - 1 payments in a pool of that capacity the n-th passes everything but the pool, and is not rolled back. */
  lemma RefuseNext(u: Setup, m: Machine, n: u64) returns (env: Environment)
    requires Ready(u) && 1 <= u.capacity == n - 1 && n <= Funds(u) && Quiet(u, m, n - 1)
    ensures ValidateFull(u.v, Payment(u, n), m.node.dag.transactions, m.node.ledger, 1).None?
    ensures Written(u, m.node, n, env)
    ensures WritePhase(m.node, CallOf(u, n), env).1 == Err(MempoolFailed(M.Full))
    ensures WritePhase(m.node, CallOf(u, n), env).0 != m.node
  {
    env := NextWrite(u, m, n);
    PoolIsFull(m.node.mempool, Payment(u, n));
    NextCallPasses(u, m, n, env);
    RollbackIsExact(m.node, CallOf(u, n), env);
    RefusedFinish(m.node, CallOf(u, n), env);
  }

  lemma RefusedFinish(s: NodeState, c: Call, env: Environment)
    requires OrderOk(s, c, env) && Refused(s, c, env)
    ensures M.AddFailure(s.mempool, c.tx).Some?
    ensures WritePhase(s, c, env).1 == Err(MempoolFailed(M.AddFailure(s.mempool, c.tx).value))
  {
  }

  /** What a refused n-th call leaves in the machine. */
  ghost predicate AfterRefusal(u: Setup, m: Machine, n: u64)
    requires n >= 1
  {
    && m.refused == {Payment(u, n)}
    && Paid(m.node.dag.transactions, u, n) && L.Nonce(m.node.ledger, Owner(u)) == n - 1
    && m.node.consensus.currentHeight == n
    && PaysTheFinalOne(m.forfeited, n)
    && SoundRun(Base(u), m)
  }

  lemma RefusalIsLogged(u: Setup, m: Machine, n: u64, env: Environment)
    requires Ready(u) && 1 <= n <= Funds(u) && Quiet(u, m, n - 1)
    requires Written(u, m.node, n, env) && Refused(m.node, CallOf(u, n), env)
    ensures AfterRefusal(u, After(u.v, m, CallOf(u, n), env, true), n)
  {
    NextCallWrites(u, m, n, env, true);
    SoundAfter(u, m, CallOf(u, n), env, true);
  }

  /** After n - 1 accepted calls a pool of that capacity is full: the n-th call breaks the promised rollback. */
  lemma FullPoolBreaksTheRollback(u: Setup, n: u64) returns (events: seq<Event>, env: Environment)
    requires Ready(u) && 1 <= u.capacity == n - 1 && n <= Funds(u)
    ensures QuietRun(u, events, n - 1) && Written(u, ExecAll(u.v, u.start, events).node, n, env)
    ensures var s, c := ExecAll(u.v, u.start, events).node, CallOf(u, n);
            && ValidateFull(u.v, c.tx, s.dag.transactions, s.ledger, c.minFee).None?
            && OrderOk(s, c, env) && WritePhase(s, c, env).1 == Err(MempoolFailed(M.Full)) && WritePhase(s, c, env).0 != s
    ensures AfterRefusal(u, ExecAll(u.v, u.start, RunOn(events, CallOf(u, n), env, true)), n)
  {
    QuietRunsExist(u, n - 1);
    events :| QuietRun(u, events, n - 1);
    env := RefuseNext(u, ExecAll(u.v, u.start, events), n);
    RefusalIsLogged(u, ExecAll(u.v, u.start, events), n, env);
    ExecRunOn(u.v, u.start, events, CallOf(u, n), env, true);
  }

  /** The reward six heights down neither waits nor was kept. */
  ghost predicate LosesReward(u: Setup, m: Machine, height: nat)
    requires height > FINALITY
  {
    && m.node.consensus.currentHeight == height && !WaitsAt(m.node.consensus, height - FINALITY)
    && PaidTotal(m.forfeited) == E.CalculateReward(height - FINALITY)
    && m.node.ledger.totalSupply == u.start.node.ledger.totalSupply + Minted(height - 1)
  }

  lemma RefusalLosesReward(u: Setup, m: Machine, n: u64)
    requires n > FINALITY && AfterRefusal(u, m, n)
    ensures LosesReward(u, m, n)
  {
    FinalOneIsMinted(m.forfeited, n);
  }

  lemma RefusedRunsExist(u: Setup, n: u64)
    requires Ready(u) && 1 <= u.capacity == n - 1 && n <= Funds(u)
    ensures exists events :: RefusedRun(u, events, n)
  {
    var before, env := FullPoolBreaksTheRollback(u, n);
    assert RefusedRun(u, RunOn(before, CallOf(u, n), env, true), n);
  }

  ghost predicate RefusedRun(u: Setup, events: seq<Event>, n: u64)
    requires u.v.difficulty <= 255 && n >= 1
  {
    AfterRefusal(u, ExecAll(u.v, u.start, events), n)
  }

  /** For every capacity of at least six: the call that finds the pool full loses the reward six heights down. */
  lemma RewardIsLost(u: Setup, n: u64)
    requires Ready(u) && 6 <= u.capacity == n - 1 && n <= Funds(u)
    ensures exists events :: LosesReward(u, ExecAll(u.v, u.start, events), n)
  {
    RefusedRunsExist(u, n);
    var events :| RefusedRun(u, events, n);
    RefusalLosesReward(u, ExecAll(u.v, u.start, events), n);
  }

  /** A run that ends with a refused call does not survive a restart. */
  lemma RefusedRunIsLost(u: Setup, n: u64, list: seq<Transaction>) returns (events: seq<Event>)
    requires Ready(u) && 1 <= u.capacity == n - 1 && n <= Funds(u)
    ensures var m := ExecAll(u.v, u.start, events);
            Restart.ReadBack(m.disk, list) ==> !R.SameShape(R.Rebuild(D.EMPTY_DAG, list).dag, m.node.dag)
  {
    var before, env := FullPoolBreaksTheRollback(u, n);
    events := RunOn(before, CallOf(u, n), env, true);
    TameRunOn(u, before, n, env, true);
    RefusalFailsLate(u, before, n, env);
    EmptyNodeIsInStep(u.start);
    if Restart.ReadBack(ExecAll(u.v, u.start, events).disk, list) {
      Restart.RunSurvivesRestart(u.v, u.start, events, list);
    }
  }

  lemma RefusalFailsLate(u: Setup, before: seq<Event>, n: u64, env: Environment)
    requires Ready(u) && 1 <= n <= Funds(u) && QuietRun(u, before, n - 1)
    requires Written(u, ExecAll(u.v, u.start, before).node, n, env)
    requires Refused(ExecAll(u.v, u.start, before).node, CallOf(u, n), env)
    ensures !Restart.NeverFailsLate(u.v, u.start, RunOn(before, CallOf(u, n), env, true))
  {
    var c := CallOf(u, n);
    var m := ExecAll(u.v, u.start, before);
    NextCallWrites(u, m, n, env, true);
    RefusedFinish(m.node, c, env);
    LastFailsLate(u.v, u.start, before, c, env);
  }

  lemma LastFailsLate(v: Validator, m0: Machine, before: seq<Event>, c: Call, env: Environment)
    requires v.difficulty <= 255
    requires var m := ExecAll(v, m0, before);
             && Exec(v, m, Begin(c)) == m.(inFlight := [c])
             && OrderOk(m.node, c, env) && Refused(m.node, c, env) && M.AddFailure(m.node.mempool, c.tx).Some?
    ensures !Restart.NeverFailsLate(v, m0, RunOn(before, c, env, true))
  {
    var all := RunOn(before, c, env, true);
    assert all[..|all| - 1] == before + [Begin(c)] && (before + [Begin(c)])[..|before|] == before;
    assert Restart.FailsLate(ExecAll(v, m0, before).(inFlight := [c]), Write(0, env, true));
  }

  // ---- an accepted payment that the disk misses ----

  /** The first call accepted, and its transaction missing on disk. */
  ghost predicate MissesTheDisk(u: Setup, m: Machine) {
    Paid(m.node.dag.transactions, u, 1) && m.refused == {} && m.node.consensus.currentHeight == 1 && m.disk == map[]
  }

  lemma FirstMissesTheDisk(u: Setup) returns (events: seq<Event>)
    requires Ready(u) && u.capacity >= 1 && Funds(u) >= 1
    ensures Tame(events) && MissesTheDisk(u, ExecAll(u.v, u.start, events))
  {
    StartIsQuiet(u);
    var env := NextWrite(u, u.start, 1);
    PoolGrows(u.start.node.mempool, Payment(u, 1));
    NextCallWrites(u, u.start, 1, env, false);
    events := RunOn([], CallOf(u, 1), env, false);
    ExecRunOn(u.v, u.start, [], CallOf(u, 1), env, false);
    TameRunOn(u, [], 1, env, false);
  }

  /** One accepted call, whose transaction does not reach the disk: the repair forgets the fee that was paid. */
  lemma RepairLosesAPayment(u: Setup) returns (events: seq<Event>)
    requires Ready(u) && u.capacity >= 1 && Funds(u) >= 1
    ensures MissesTheDisk(u, ExecAll(u.v, u.start, events))
    ensures Restart.ReadBack(ExecAll(u.v, u.start, events).disk, [])
    ensures Repair.ListsStore(R.Rebuild(D.EMPTY_DAG, []).dag.transactions, [])
    ensures !Repair.SameBalances(ExecAll(u.v, u.start, events).node.ledger, Repair.Repaired(u.start.node.ledger, []))
  {
    events := FirstMissesTheDisk(u);
    OnePaymentLost(u, ExecAll(u.v, u.start, events));
    NetOfOne(u);
    Repair.RepairLosesExactly(u.v, u.start, events, [], [], [Payment(u, 1)]);
    assert Replaying.Net([Payment(u, 1)], Owner(u)) != 0;
  }

  lemma NetOfOne(u: Setup)
    requires Owner(u) != FEE_BURN_ADDRESS
    ensures Replaying.Net([Payment(u, 1)], Owner(u)) == -1
  {
    assert [Payment(u, 1)][..0] == [];
  }

  lemma OnePaymentLost(u: Setup, m: Machine)
    requires Paid(m.node.dag.transactions, u, 1) && m.refused == {}
    ensures Repair.ListsLost(m, Replaying.ReplayFrom(u.start.node.ledger, []).moved, [Payment(u, 1)])
  {
    assert Replaying.ReplayFrom(u.start.node.ledger, []).moved == [];
    forall tx ensures tx in [Payment(u, 1)] <==> Repair.Holds(m.node.dag.transactions, tx) {
      if Repair.Holds(m.node.dag.transactions, tx) {
        assert m.node.dag.transactions[tx.id] == Payment(u, tx.id.value);
      }
      assert Hash(1) in m.node.dag.transactions;
    }
  }

  // ---- seven accepted calls ----

  /** The first n payments. */
  function Payments(u: Setup, n: u64): seq<Transaction> {
    if n == 0 then [] else Payments(u, n - 1) + [Payment(u, n)]
  }

  lemma {:induction false} PaymentsAt(u: Setup, n: u64)
    ensures |Payments(u, n)| == n
    ensures forall i :: 0 <= i < n ==> Payments(u, n)[i] == Payment(u, i + 1)
  {
    if n > 0 {
      PaymentsAt(u, n - 1);
    }
  }

  /** Each costs the owner its fee. */
  lemma {:induction false} NetOfPayments(u: Setup, n: u64)
    requires Owner(u) != FEE_BURN_ADDRESS
    ensures Replaying.Net(Payments(u, n), Owner(u)) == 0 - n
  {
    if n > 0 {
      NetOfPayments(u, n - 1);
      assert Payments(u, n)[..|Payments(u, n)| - 1] == Payments(u, n - 1);
    }
  }

  lemma PaymentsAreAmple(u: Setup, n: u64)
    requires Ready(u)
    ensures DeadEnds.Ample(u.start.node.ledger, Payments(u, n))
  {
    PaymentsAt(u, n);
  }

  /** The owner's balance covers the next fee. */
  lemma FeeIsCovered(u: Setup, n: u64, paid: seq<Transaction>)
    requires 1 <= n <= Funds(u) && Replaying.Net(paid, Owner(u)) == 1 - n
    ensures var tx := Payment(u, n);
            tx.amount + tx.fee <= L.Balance(u.start.node.ledger, tx.sender) + Replaying.Net(paid, tx.sender)
  {
  }

  lemma NextIsPayable(u: Setup, n: u64, all: seq<Transaction>, paid: seq<Transaction>)
    requires 1 <= n <= Funds(u) && Replaying.Net(paid, Owner(u)) == 1 - n
    requires DeadEnds.Ample(u.start.node.ledger, all) && DeadEnds.Playable(u.start.node.ledger, paid)
    requires Payment(u, n) in all && forall tx :: tx in paid ==> tx in all
    requires Replaying.ParentsApplied(DeadEnds.Ids(paid), Payment(u, n))
    ensures DeadEnds.Payable(u.start.node.ledger, paid, Payment(u, n))
  {
    FeeIsCovered(u, n, paid);
    DeadEnds.CoveredIsPayable(u.start.node.ledger, all, paid, Payment(u, n));
  }

  lemma PaymentIsNext(u: Setup, n: u64)
    requires Owner(u) != FEE_BURN_ADDRESS && 1 <= n <= Funds(u)
    requires DeadEnds.Ample(u.start.node.ledger, Payments(u, n))
    requires DeadEnds.Playable(u.start.node.ledger, Payments(u, n - 1))
    ensures DeadEnds.Playable(u.start.node.ledger, Payments(u, n))
  {
    NetOfPayments(u, n - 1);
    LastOfPayments(u, n);
    NextIsPayable(u, n, Payments(u, n), Payments(u, n - 1));
    DeadEnds.PlayableAppend(u.start.node.ledger, Payments(u, n - 1), Payment(u, n));
  }

  /** As many payments as the owner has money for can be made one after another. */
  lemma {:induction false} PaymentsPlay(u: Setup, n: u64)
    requires Ready(u) && n <= Funds(u)
    ensures DeadEnds.Playable(u.start.node.ledger, Payments(u, n))
  {
    if n > 0 {
      PaymentsPlay(u, n - 1);
      PaymentsAreAmple(u, n);
      PaymentIsNext(u, n);
    }
  }

  /** Its parent was paid, and both are among the first n. */
  lemma LastOfPayments(u: Setup, n: u64)
    requires n >= 1
    ensures Payment(u, n) in Payments(u, n) && forall tx :: tx in Payments(u, n - 1) ==> tx in Payments(u, n)
    ensures Replaying.ParentsApplied(DeadEnds.Ids(Payments(u, n - 1)), Payment(u, n))
  {
    PaymentsAt(u, n - 1);
    var before := Payments(u, n - 1);
    if n > 1 {
      assert before[n - 2] in before;
    }
  }

  lemma PaymentsListStore(txs: Transactions, u: Setup, n: u64)
    requires Paid(txs, u, n)
    ensures Repair.ListsStore(txs, Payments(u, n))
  {
    PaymentsAt(u, n);
    var list := Payments(u, n);
    forall tx ensures tx in list <==> Repair.Holds(txs, tx) {
      if Repair.Holds(txs, tx) {
        assert txs[tx.id] == Payment(u, tx.id.value);
        assert list[tx.id.value - 1] == tx;
      }
    }
  }

  lemma PaymentsReplay(u: Setup, n: u64)
    requires Ready(u) && n <= Funds(u)
    ensures Replaying.ReplayFrom(u.start.node.ledger, Payments(u, n)).pending == []
  {
    PaymentsAreAmple(u, n);
    PaymentsPlay(u, n);
    PlayableReplays(u.start.node.ledger, Payments(u, n));
  }

  lemma PlayableReplays(l: L.LedgerState, list: seq<Transaction>)
    requires DeadEnds.Ample(l, list) && DeadEnds.Playable(l, list)
    ensures Replaying.ReplayFrom(l, list).pending == []
  {
    DeadEnds.StuckIsReached(l, list, list, []);
    assert list + [] == list;
  }

  /** After seven accepted calls, all of them on disk, the repair gets through and still loses the first reward. */
  lemma RepairLosesAReward(u: Setup) returns (events: seq<Event>, list: seq<Transaction>)
    requires Ready(u) && u.capacity >= 7 && Funds(u) >= 7
    ensures var m, l := ExecAll(u.v, u.start, events), u.start.node.ledger;
            && Restart.NeverFailsLate(u.v, u.start, events) && Restart.ReadBack(m.disk, list)
            && Repair.ListsStore(R.Rebuild(D.EMPTY_DAG, list).dag.transactions, list)
            && Replaying.ReplayFrom(l, list).pending == []
            && !Repair.SameBalances(m.node.ledger, Repair.Repaired(l, list))
  {
    QuietRunsExist(u, 7);
    events :| QuietRun(u, events, 7);
    list := Payments(u, 7);
    PaymentsListStore(ExecAll(u.v, u.start, events).node.dag.transactions, u, 7);
    PaymentsReplay(u, 7);
    Restart.RunsBack(u.v, u.start, events);
    Repair.NothingIsLost(u.v, u.start, events, list);
    Repair.RepairForgetsExactlyTheRewards(u.v, u.start, events, list, list);
  }
}
