/** Balances, nonces, burned fees and supply (src/ledger.rs). */
module LedgerModel {
  import opened Types
  import opened Sums
  import opened Emission
  import opened Consensus

  datatype LedgerState = LedgerState(
    balances: map<Address, u64>,
    nonces: map<Address, u64>,
    totalFeesBurned: u64,
    totalSupply: u64)

  datatype LedgerError =
    | AmountFeeOverflow
    | InsufficientBalance(available: nat, required: nat)
    | ReceiverOverflow
    | BurnOverflow
    | FeesBurnedOverflow
    | InvalidNonce(last: nat, provided: nat)
    | BlockAlreadyRewarded
    | NotFinalized(needed: int)
    | SupplyOverflow
    | MaxSupplyExceeded
    | RewardOverflow
    | RollbackInsufficient
    | SupplyUnderflow

  const EMPTY_LEDGER := LedgerState(map[], map[], 0, 0)

  function Balance(l: LedgerState, a: Address): u64 {
    GetOr(l.balances, a, 0)
  }

  function Nonce(l: LedgerState, a: Address): u64 {
    GetOr(l.nonces, a, 0)
  }

  // ---- transfers ----

  /** The first check of a transfer that fails. */
  function TransferError(l: LedgerState, from: Address, to: Address, amount: u64, fee: u64): Option<LedgerError> {
    if amount + fee > U64_MAX then Some(AmountFeeOverflow)
    else if Balance(l, from) < amount + fee then Some(InsufficientBalance(Balance(l, from), amount + fee))
    else if from != to && Balance(l, to) + amount > U64_MAX then Some(ReceiverOverflow)
    else if fee > 0 && Balance(l, FEE_BURN_ADDRESS) + fee > U64_MAX then Some(BurnOverflow)
    else if fee > 0 && l.totalFeesBurned + fee > U64_MAX then Some(FeesBurnedOverflow)
    else None
  }

  /** All or nothing; later writes win when two parties share an address. */
  function Transfer(l: LedgerState, from: Address, to: Address, amount: u64, fee: u64): LedgerState {
    if TransferError(l, from, to, amount, fee).Some? then l
    else
      var burned := Balance(l, FEE_BURN_ADDRESS) + fee;
      l.(balances :=
           if from == to then l.balances[from := Balance(l, from) - fee][FEE_BURN_ADDRESS := burned]
           else l.balances[from := Balance(l, from) - (amount + fee)]
                          [to := Balance(l, to) + amount]
                          [FEE_BURN_ADDRESS := burned],
         totalFeesBurned := l.totalFeesBurned + fee)
  }

  /** The sum of every balance, the burn address included. */
  ghost function Total(l: LedgerState): (t: int)
    ensures t >= 0
  {
    MapSum(l.balances)
  }

  /** Without a burn-address party each account moves by what it paid and received. */
  lemma TransferMovesMoney(l: LedgerState, from: Address, to: Address, amount: u64, fee: u64, a: Address)
    requires TransferError(l, from, to, amount, fee).None?
    requires from != FEE_BURN_ADDRESS && to != FEE_BURN_ADDRESS
    ensures Balance(Transfer(l, from, to, amount, fee), a)
         == Balance(l, a) - (if a == from then amount + fee else 0)
                          + (if a == to then amount else 0)
                          + (if a == FEE_BURN_ADDRESS then fee else 0)
  {
  }

  /** The burn address as receiver swallows the amount, as sender it is never charged. */
  predicate Conserving(from: Address, to: Address, amount: u64, fee: u64) {
    && (to == FEE_BURN_ADDRESS && from != to ==> amount == 0)
    && (from == FEE_BURN_ADDRESS ==> fee == 0 && (from != to ==> amount == 0))
  }

  /** What an accepted transfer adds to the sum of all balances. */
  function TransferDelta(from: Address, to: Address, amount: u64, fee: u64): int {
    if from == FEE_BURN_ADDRESS then (if from == to then fee else amount + fee)
    else if to == FEE_BURN_ADDRESS then 0 - amount
    else 0
  }

  lemma TransferTotal(l: LedgerState, from: Address, to: Address, amount: u64, fee: u64)
    requires TransferError(l, from, to, amount, fee).None?
    ensures Total(Transfer(l, from, to, amount, fee)) == Total(l) + TransferDelta(from, to, amount, fee)
  {
    if from == to {
      SelfTransferTotal(l.balances, from, fee);
    } else {
      OtherTransferTotal(l.balances, from, to, amount, fee);
    }
  }

  lemma SelfTransferTotal(b0: map<Address, int>, from: Address, fee: u64)
    ensures MapSum(b0[from := GetOr(b0, from, 0) - fee][FEE_BURN_ADDRESS := GetOr(b0, FEE_BURN_ADDRESS, 0) + fee])
         == MapSum(b0) + if from == FEE_BURN_ADDRESS then fee else 0
  {
    SumUpdate(b0, from, GetOr(b0, from, 0) - fee);
    SumUpdate(b0[from := GetOr(b0, from, 0) - fee], FEE_BURN_ADDRESS, GetOr(b0, FEE_BURN_ADDRESS, 0) + fee);
  }

  lemma OtherTransferTotal(b0: map<Address, int>, from: Address, to: Address, amount: u64, fee: u64)
    requires from != to
    ensures MapSum(b0[from := GetOr(b0, from, 0) - (amount + fee)]
                     [to := GetOr(b0, to, 0) + amount]
                     [FEE_BURN_ADDRESS := GetOr(b0, FEE_BURN_ADDRESS, 0) + fee])
         == MapSum(b0) + TransferDelta(from, to, amount, fee)
  {
    var b2 := b0[from := GetOr(b0, from, 0) - (amount + fee)][to := GetOr(b0, to, 0) + amount];
    SumOfTwoMoves(b0, from, to, amount + fee, amount);
    SumUpdate(b2, FEE_BURN_ADDRESS, GetOr(b0, FEE_BURN_ADDRESS, 0) + fee);
  }

  lemma SumOfTwoMoves(b0: map<Address, int>, from: Address, to: Address, paid: int, received: int)
    requires from != to
    ensures MapSum(b0[from := GetOr(b0, from, 0) - paid][to := GetOr(b0, to, 0) + received]) == MapSum(b0) - paid + received
  {
    SumUpdate(b0, from, GetOr(b0, from, 0) - paid);
    SumUpdate(b0[from := GetOr(b0, from, 0) - paid], to, GetOr(b0, to, 0) + received);
  }

  /** Exactly when an accepted transfer neither makes nor destroys money. */
  lemma TransferConserves(l: LedgerState, from: Address, to: Address, amount: u64, fee: u64)
    requires TransferError(l, from, to, amount, fee).None?
    ensures Total(Transfer(l, from, to, amount, fee)) == Total(l) <==> Conserving(from, to, amount, fee)
  {
    TransferTotal(l, from, to, amount, fee);
  }

  /** A concrete payment to the burn address that destroys its amount. */
  lemma PayingTheBurnAddressLosesTheAmount()
    ensures var l := LedgerState(map[FOUNDER_ADDRESS := 100], map[], 0, 0);
            var l' := Transfer(l, FOUNDER_ADDRESS, FEE_BURN_ADDRESS, 50, 5);
            && Balance(l', FOUNDER_ADDRESS) == 45
            && Balance(l', FEE_BURN_ADDRESS) == 5
            && Total(l') == Total(l) - 50
  {
    var l := LedgerState(map[FOUNDER_ADDRESS := 100], map[], 0, 0);
    TransferTotal(l, FOUNDER_ADDRESS, FEE_BURN_ADDRESS, 50, 5);
  }

  // ---- nonces ----

  function NonceError(l: LedgerState, a: Address, nonce: u64): Option<LedgerError> {
    if a != FAUCET_ADDRESS && nonce != Nonce(l, a) + 1 then Some(InvalidNonce(Nonce(l, a), nonce)) else None
  }

  function CommitNonce(l: LedgerState, a: Address, nonce: u64): LedgerState {
    if NonceError(l, a, nonce).Some? then l
    else if a == FAUCET_ADDRESS && nonce <= Nonce(l, a) then l
    else l.(nonces := l.nonces[a := nonce])
  }

  // ---- block rewards ----

  function RewardError(l: LedgerState, validator: Address, id: BlockId, height: nat, c: ConsensusValue): Option<LedgerError> {
    var reward := CalculateReward(height);
    if id in c.rewardedBlocks then Some(BlockAlreadyRewarded)
    else if !IsFinalized(c, height) then
      Some(NotFinalized(c.confirmationThreshold - SaturatingSub(c.currentHeight, height)))
    else if l.totalSupply + reward > U64_MAX then Some(SupplyOverflow)
    else if l.totalSupply + reward > MAX_SUPPLY then Some(MaxSupplyExceeded)
    else if Balance(l, validator) + reward > U64_MAX then Some(RewardOverflow)
    else None
  }

  function Reward(l: LedgerState, validator: Address, id: BlockId, height: nat, c: ConsensusValue): LedgerState {
    if RewardError(l, validator, id, height, c).Some? then l
    else
      var reward := CalculateReward(height);
      l.(balances := l.balances[validator := Balance(l, validator) + reward], totalSupply := l.totalSupply + reward)
  }

  function RollbackError(l: LedgerState, validator: Address, amount: u64): Option<LedgerError> {
    if Balance(l, validator) < amount then Some(RollbackInsufficient)
    else if l.totalSupply < amount then Some(SupplyUnderflow)
    else None
  }

  /** The balance is written before the supply is checked. */
  function Rollback(l: LedgerState, validator: Address, amount: u64): LedgerState {
    if Balance(l, validator) < amount then l
    else
      l.(balances := l.balances[validator := Balance(l, validator) - amount],
         totalSupply := if l.totalSupply < amount then l.totalSupply else l.totalSupply - amount)
  }

  /** Exactly which transfers are accepted. */
  lemma TransferExactly(l: LedgerState, from: Address, to: Address, amount: u64, fee: u64)
    ensures TransferError(l, from, to, amount, fee).None? <==>
              && amount + fee <= Balance(l, from)
              && (from != to ==> Balance(l, to) + amount <= U64_MAX)
              && (fee > 0 ==> Balance(l, FEE_BURN_ADDRESS) + fee <= U64_MAX && l.totalFeesBurned + fee <= U64_MAX)
  {
  }

  /** Exactly which rewards are paid: not paid before, final, and within the cap and 64 bits. The first two are checked
    * first. */
  lemma RewardExactly(l: LedgerState, validator: Address, id: BlockId, height: nat, c: ConsensusValue)
    ensures RewardError(l, validator, id, height, c).None? <==>
              && id !in c.rewardedBlocks
              && (height + c.confirmationThreshold <= c.currentHeight || c.confirmationThreshold == 0)
              && l.totalSupply + CalculateReward(height) <= 18_000_000_000_000_000_000
              && Balance(l, validator) + CalculateReward(height) <= U64_MAX
    ensures var e := RewardError(l, validator, id, height, c);
            && (e == Some(BlockAlreadyRewarded) <==> id in c.rewardedBlocks)
            && (e.Some? && e.value.NotFinalized? <==>
                  id !in c.rewardedBlocks && c.currentHeight < height + c.confirmationThreshold && c.confirmationThreshold > 0)
  {
  }

  lemma RewardTotal(l: LedgerState, validator: Address, id: BlockId, height: nat, c: ConsensusValue)
    ensures Total(Reward(l, validator, id, height, c)) - Total(l)
         == Reward(l, validator, id, height, c).totalSupply - l.totalSupply
    ensures RewardError(l, validator, id, height, c).None? ==>
              Reward(l, validator, id, height, c).totalSupply == l.totalSupply + CalculateReward(height)
  {
    SumUpdate(l.balances, validator, Balance(l, validator) + CalculateReward(height));
  }

  /** A refused rollback leaves the ledger alone exactly when the supply covers it. */
  lemma RollbackIsAtomic(l: LedgerState, validator: Address, amount: u64)
    ensures (RollbackError(l, validator, amount).Some? ==> Rollback(l, validator, amount) == l)
            <==> (Balance(l, validator) < amount || amount <= l.totalSupply)
  {
    if amount <= Balance(l, validator) && l.totalSupply < amount {
      assert Balance(Rollback(l, validator, amount), validator) < Balance(l, validator);
    }
  }

  /** A concrete half-done rollback: refused, yet the balance is gone. */
  lemma RollbackCanFailHalfway()
    ensures var l := LedgerState(map[FAUCET_ADDRESS := 100], map[], 0, 0);
            && RollbackError(l, FAUCET_ADDRESS, 60) == Some(SupplyUnderflow)
            && Balance(Rollback(l, FAUCET_ADDRESS, 60), FAUCET_ADDRESS) == 40
  {
  }

  lemma RollbackUndoesReward(l: LedgerState, validator: Address, id: BlockId, height: nat, c: ConsensusValue)
    requires RewardError(l, validator, id, height, c).None?
    ensures var l' := Reward(l, validator, id, height, c);
            var back := Rollback(l', validator, CalculateReward(height));
            && RollbackError(l', validator, CalculateReward(height)).None?
            && back.totalSupply == l.totalSupply
            && back.nonces == l.nonces && back.totalFeesBurned == l.totalFeesBurned
            && forall a :: Balance(back, a) == Balance(l, a)
  {
  }

  // ---- runs ----

  datatype Op =
    | Pay(from: Address, to: Address, amount: u64, fee: u64)
    | Mint(validator: Address, id: BlockId, height: nat, c: ConsensusValue)
    | Unmint(validator: Address, amount: u64)

  function Apply(l: LedgerState, op: Op): LedgerState {
    match op
    case Pay(from, to, amount, fee) => Transfer(l, from, to, amount, fee)
    case Mint(validator, id, height, c) => Reward(l, validator, id, height, c)
    case Unmint(validator, amount) => Rollback(l, validator, amount)
  }

  function ApplyAll(l: LedgerState, ops: seq<Op>): LedgerState {
    if ops == [] then l else Apply(ApplyAll(l, ops[..|ops| - 1]), ops[|ops| - 1])
  }

  predicate AvoidsBurnAddress(op: Op) {
    match op
    case Pay(from, to, _, _) => from != FEE_BURN_ADDRESS && to != FEE_BURN_ADDRESS
    case Mint(validator, _, _, _) => validator != FEE_BURN_ADDRESS
    case Unmint(validator, _) => validator != FEE_BURN_ADDRESS
  }

  ghost predicate BurnTracked(l: LedgerState) {
    Balance(l, FEE_BURN_ADDRESS) == l.totalFeesBurned
  }

  /** The supply covers every balance that is not burned. */
  ghost predicate SupplyAccountsForAll(l: LedgerState) {
    Total(l) - Balance(l, FEE_BURN_ADDRESS) <= l.totalSupply
  }

  lemma {:induction false} OpKeepsBurn(l: LedgerState, op: Op)
    requires BurnTracked(l)
    requires op.Mint? || op.Unmint? ==> op.validator != FEE_BURN_ADDRESS
    ensures BurnTracked(Apply(l, op))
    ensures l.totalFeesBurned <= Apply(l, op).totalFeesBurned
  {
  }

  lemma OpConserves(l: LedgerState, op: Op)
    requires AvoidsBurnAddress(op)
    ensures Total(Apply(l, op)) - Apply(l, op).totalSupply == Total(l) - l.totalSupply
            <==> (op.Unmint? ==> Balance(l, op.validator) < op.amount || op.amount <= l.totalSupply)
  {
    match op
    case Pay(from, to, amount, fee) =>
      if TransferError(l, from, to, amount, fee).None? {
        TransferTotal(l, from, to, amount, fee);
      }
    case Mint(validator, id, height, c) =>
      RewardTotal(l, validator, id, height, c);
    case Unmint(validator, amount) =>
      if Balance(l, validator) >= amount {
        SumUpdate(l.balances, validator, Balance(l, validator) - amount);
      }
  }

  /** A rollback that takes the balance and then finds the supply too small. */
  predicate HalfDone(l: LedgerState, op: Op) {
    op.Unmint? && op.amount <= Balance(l, op.validator) && l.totalSupply < op.amount
  }

  /** Some operation of the run is a half-done rollback in the state it meets. */
  predicate SomeHalfDone(l: LedgerState, ops: seq<Op>) {
    ops != []
    && (SomeHalfDone(l, ops[..|ops| - 1]) || HalfDone(ApplyAll(l, ops[..|ops| - 1]), ops[|ops| - 1]))
  }

  /** What there is beyond the supply. */
  ghost function Surplus(l: LedgerState): int {
    Total(l) - l.totalSupply
  }

  lemma OpKeepsSurplus(l: LedgerState, op: Op)
    requires AvoidsBurnAddress(op)
    ensures Surplus(Apply(l, op)) == Surplus(l) - if HalfDone(l, op) then op.amount else 0
  {
    OpConserves(l, op);
    if HalfDone(l, op) {
      SumUpdate(l.balances, op.validator, Balance(l, op.validator) - op.amount);
    }
  }

  /** Over any run from any ledger: burn equals fees and the cap holds; money beyond the supply never appears,
    * and none of it vanishes exactly when no rollback is half done. */
  lemma {:induction false} SupplyIsConserved(l: LedgerState, ops: seq<Op>)
    requires BurnTracked(l) && l.totalSupply <= MAX_SUPPLY
    requires forall i :: 0 <= i < |ops| ==> AvoidsBurnAddress(ops[i])
    ensures var l' := ApplyAll(l, ops);
            && BurnTracked(l') && l'.totalSupply <= MAX_SUPPLY
            && Surplus(l') <= Surplus(l)
            && (Surplus(l') == Surplus(l) <==> !SomeHalfDone(l, ops))
  {
    if ops != [] {
      SupplyIsConserved(l, ops[..|ops| - 1]);
      OpKeepsSurplus(ApplyAll(l, ops[..|ops| - 1]), ops[|ops| - 1]);
      OpKeepsBurn(ApplyAll(l, ops[..|ops| - 1]), ops[|ops| - 1]);
    }
  }

  /** When the supply accounts for all balances no rollback is ever half done. */
  lemma {:induction false} AccountedRunsConserve(l: LedgerState, ops: seq<Op>)
    requires BurnTracked(l) && SupplyAccountsForAll(l) && l.totalSupply <= MAX_SUPPLY
    requires forall i :: 0 <= i < |ops| ==> AvoidsBurnAddress(ops[i])
    ensures !SomeHalfDone(l, ops)
    ensures var l' := ApplyAll(l, ops); Surplus(l') == Surplus(l) && SupplyAccountsForAll(l')
  {
    SupplyIsConserved(l, ops);
    if ops != [] {
      var before, op := ApplyAll(l, ops[..|ops| - 1]), ops[|ops| - 1];
      AccountedRunsConserve(l, ops[..|ops| - 1]);
      if op.Unmint? {
        SumAtLeastTwo(before.balances, op.validator, FEE_BURN_ADDRESS);
      }
      BurnNeverFalls(l, ops);
    }
  }

  lemma {:induction false} BurnNeverFalls(l: LedgerState, ops: seq<Op>)
    requires BurnTracked(l) && l.totalSupply <= MAX_SUPPLY
    requires forall i :: 0 <= i < |ops| ==> AvoidsBurnAddress(ops[i])
    ensures l.totalFeesBurned <= ApplyAll(l, ops).totalFeesBurned
  {
    if ops != [] {
      BurnNeverFalls(l, ops[..|ops| - 1]);
      SupplyIsConserved(l, ops[..|ops| - 1]);
      OpKeepsBurn(ApplyAll(l, ops[..|ops| - 1]), ops[|ops| - 1]);
    }
  }

  /** In such runs every refused rollback has changed nothing. */
  lemma RollbackIsAtomicWhenAccounted(l: LedgerState, validator: Address, amount: u64)
    requires SupplyAccountsForAll(l) && validator != FEE_BURN_ADDRESS
    ensures RollbackError(l, validator, amount).Some? ==> Rollback(l, validator, amount) == l
  {
    SumAtLeastTwo(l.balances, validator, FEE_BURN_ADDRESS);
  }

  /** When the balances fit in 64 bits, a covered transfer cannot overflow. */
  lemma TransferCannotOverflow(l: LedgerState, from: Address, to: Address, amount: u64, fee: u64)
    requires Total(l) <= U64_MAX && BurnTracked(l) && from != FEE_BURN_ADDRESS
    requires amount + fee <= Balance(l, from)
    ensures TransferError(l, from, to, amount, fee).None?
  {
    if from != to {
      SumAtLeastTwo(l.balances, from, to);
    }
    SumAtLeastTwo(l.balances, from, FEE_BURN_ADDRESS);
  }

  class Ledger {
    var balances: map<Address, u64>
    var nonces: map<Address, u64>
    var totalFeesBurned: u64
    var totalSupply: u64

    ghost function State(): LedgerState
      reads this
    {
      LedgerState(balances, nonces, totalFeesBurned, totalSupply)
    }

    constructor ()
      ensures State() == EMPTY_LEDGER
    {
      balances, nonces, totalFeesBurned, totalSupply := map[], map[], 0, 0;
    }

    method TransferInternal(from: Address, to: Address, amount: u64, fee: u64) returns (r: Result<Unit, LedgerError>)
      modifies this
      ensures State() == Transfer(old(State()), from, to, amount, fee)
      ensures r == (match TransferError(old(State()), from, to, amount, fee) case Some(e) => Err(e) case None => Ok(Unit))
    {
      var fromBalance := GetOr(balances, from, 0);
      var toBalance := GetOr(balances, to, 0);
      var burnBalance := GetOr(balances, FEE_BURN_ADDRESS, 0);
      if amount + fee > U64_MAX {
        return Err(AmountFeeOverflow);
      }
      var totalDeduction := amount + fee;
      if fromBalance < totalDeduction {
        return Err(InsufficientBalance(fromBalance, totalDeduction));
      }
      var newFromBalance := fromBalance - totalDeduction;
      if from != to && toBalance + amount > U64_MAX {
        return Err(ReceiverOverflow);
      }
      var newBurnBalance, newTotalFeesBurned := burnBalance, totalFeesBurned;
      if fee > 0 {
        if burnBalance + fee > U64_MAX {
          return Err(BurnOverflow);
        }
        newBurnBalance := burnBalance + fee;
        if totalFeesBurned + fee > U64_MAX {
          return Err(FeesBurnedOverflow);
        }
        newTotalFeesBurned := totalFeesBurned + fee;
      }
      if from == to {
        balances := balances[from := fromBalance - fee];
      } else {
        balances := balances[from := newFromBalance];
        balances := balances[to := toBalance + amount];
      }
      balances := balances[FEE_BURN_ADDRESS := newBurnBalance];
      totalFeesBurned := newTotalFeesBurned;
      return Ok(Unit);
    }

    method ValidateAndCommitNonceInternal(a: Address, nonce: u64) returns (r: Result<Unit, LedgerError>)
      modifies this`nonces
      ensures State() == CommitNonce(old(State()), a, nonce)
      ensures r == (match NonceError(old(State()), a, nonce) case Some(e) => Err(e) case None => Ok(Unit))
    {
      var lastNonce: nat := GetOr(nonces, a, 0);
      if a == FAUCET_ADDRESS {
        if nonce > lastNonce {
          nonces := nonces[a := nonce];
        }
        return Ok(Unit);
      }
      if nonce != lastNonce + 1 {
        return Err(InvalidNonce(lastNonce, nonce));
      }
      nonces := nonces[a := nonce];
      return Ok(Unit);
    }

    method ApplyBlockReward(validator: Address, id: BlockId, height: nat, c: ConsensusState)
      returns (r: Result<Unit, LedgerError>)
      modifies this
      ensures State() == Reward(old(State()), validator, id, height, c.State())
      ensures r == (match RewardError(old(State()), validator, id, height, c.State()) case Some(e) => Err(e) case None => Ok(Unit))
    {
      if id in c.rewardedBlocks {
        return Err(BlockAlreadyRewarded);
      }
      var confirmations := SaturatingSub(c.currentHeight, height);
      if !(confirmations >= c.confirmationThreshold) {
        return Err(NotFinalized(c.confirmationThreshold - confirmations));
      }
      var reward := CalculateReward(height);
      if totalSupply + reward > U64_MAX {
        return Err(SupplyOverflow);
      }
      var newSupply := totalSupply + reward;
      if newSupply > MAX_SUPPLY {
        return Err(MaxSupplyExceeded);
      }
      var current := GetOr(balances, validator, 0);
      if current + reward > U64_MAX {
        return Err(RewardOverflow);
      }
      balances := balances[validator := current + reward];
      totalSupply := newSupply;
      return Ok(Unit);
    }

    method RollbackBlockReward(validator: Address, amount: u64) returns (r: Result<Unit, LedgerError>)
      modifies this
      ensures State() == Rollback(old(State()), validator, amount)
      ensures r == (match RollbackError(old(State()), validator, amount) case Some(e) => Err(e) case None => Ok(Unit))
    {
      var current := GetOr(balances, validator, 0);
      if current < amount {
        return Err(RollbackInsufficient);
      }
      balances := balances[validator := current - amount];
      if totalSupply < amount {
        return Err(SupplyUnderflow);
      }
      totalSupply := totalSupply - amount;
      return Ok(Unit);
    }

    method Restore(snapshot: LedgerState)
      modifies this
      ensures State() == snapshot
    {
      balances, nonces := snapshot.balances, snapshot.nonces;
      totalFeesBurned, totalSupply := snapshot.totalFeesBurned, snapshot.totalSupply;
    }
  }
}
