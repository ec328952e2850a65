/** The gate in front of the write phase (src/validation.rs). */
module Validation {
  import opened Types
  import D = Dag
  import L = LedgerModel
  import P = ProofOfWork

  datatype ValidationError =
    | InvalidPoW(difficulty: nat)
    | InvalidSignature
    | SenderPublicKeyMismatch
    | DuplicateTransaction(id: TransactionId)
    | MissingParent(index: nat, parent: TransactionId)
    | DoubleSpend
    | SenderConflict
    | InsufficientBalance(required: nat, available: nat)
    | InvalidNonce(expected: nat, provided: nat)
    | InsufficientFee(required: nat, provided: nat)
    | Overflow

  /** The hash and signature libraries, left uninterpreted. */
  datatype Oracles = Oracles(powHash: (Transaction, u64) -> seq<byte>, signatureOk: Transaction -> bool)

  datatype Validator = Validator(difficulty: nat, oracles: Oracles)

  predicate SenderMatchesKey(tx: Transaction) {
    |tx.publicKey| >= 32 && tx.sender == Key(P.BigEndian(tx.publicKey[..32]))
  }

  function ValidatePure(v: Validator, tx: Transaction): Option<ValidationError>
    requires v.difficulty <= 255
  {
    if !P.MeetsDifficulty(v.oracles.powHash(tx, tx.nonce), v.difficulty) then Some(InvalidPoW(v.difficulty))
    else if !v.oracles.signatureOk(tx) then Some(InvalidSignature)
    else if !SenderMatchesKey(tx) then Some(SenderPublicKeyMismatch)
    else if tx.amount + tx.fee > U64_MAX then Some(Overflow)
    else None
  }

  function ValidateDag(tx: Transaction, txs: Transactions): Option<ValidationError> {
    if tx.id in txs then Some(DuplicateTransaction(tx.id))
    else if tx.parents.first != GENESIS && tx.parents.first !in txs then Some(MissingParent(0, tx.parents.first))
    else if tx.parents.second != GENESIS && tx.parents.second !in txs then Some(MissingParent(1, tx.parents.second))
    else if D.HasTransactionWithParents(txs, tx.parents) then Some(DoubleSpend)
    else if D.HasSenderConflict(txs, tx.sender, tx.accountNonce) then Some(SenderConflict)
    else None
  }

  function ValidateLedger(tx: Transaction, l: L.LedgerState, minFee: u64): Option<ValidationError> {
    var required := tx.amount + tx.fee;
    if required > U64_MAX then Some(Overflow)
    else if L.Balance(l, tx.sender) < required then Some(InsufficientBalance(required, L.Balance(l, tx.sender)))
    else if tx.sender != FAUCET_ADDRESS && tx.accountNonce != L.Nonce(l, tx.sender) + 1 then
      Some(InvalidNonce(L.Nonce(l, tx.sender) + 1, tx.accountNonce))
    else if tx.fee < minFee then Some(InsufficientFee(minFee, tx.fee))
    else None
  }

  /** The first failing check: pure ones, then the DAG's, then the ledger's. */
  function ValidateFull(v: Validator, tx: Transaction, txs: Transactions, l: L.LedgerState,
                        minFee: u64): Option<ValidationError>
    requires v.difficulty <= 255
  {
    if ValidatePure(v, tx).Some? then ValidatePure(v, tx)
    else if ValidateDag(tx, txs).Some? then ValidateDag(tx, txs)
    else ValidateLedger(tx, l, minFee)
  }

  // ---- what the gate lets through ----

  /** The hash of the transaction, read as a 256-bit number, is below 2^(256 - difficulty). */
  predicate Worked(v: Validator, tx: Transaction)
    requires v.difficulty <= 255
  {
    P.BigEndian(v.oracles.powHash(tx, tx.nonce)) < P.Pow2(256 - v.difficulty)
  }

  /** Enough work, a valid signature, a key whose first 32 bytes spell the sender, and a total that fits in 64 bits. */
  predicate Authentic(v: Validator, tx: Transaction)
    requires v.difficulty <= 255
  {
    && Worked(v, tx)
    && v.oracles.signatureOk(tx)
    && |tx.publicKey| >= 32 && P.BigEndian(tx.publicKey[..32]) == tx.sender.value
    && tx.amount + tx.fee <= U64_MAX
  }

  /** Both parents are genesis or stored; no stored transaction has its id, its pair of parents (unless that is genesis
    * twice), or its sender and nonce (unless that sender is the faucet). */
  ghost predicate Attachable(tx: Transaction, txs: Transactions) {
    && tx.id !in txs
    && (forall p :: p == tx.parents.first || p == tx.parents.second ==> p == GENESIS || p in txs)
    && forall id :: id in txs ==>
         && (txs[id].parents == tx.parents ==> tx.parents.first == GENESIS == tx.parents.second)
         && (txs[id].sender == tx.sender && txs[id].accountNonce == tx.accountNonce ==> tx.sender == FAUCET_ADDRESS)
  }

  /** The sender holds amount and fee, the nonce is the next one (any one for the faucet), and the fee is high enough. */
  predicate Affordable(tx: Transaction, l: L.LedgerState, minFee: u64) {
    && tx.amount + tx.fee <= L.Balance(l, tx.sender)
    && (tx.sender == FAUCET_ADDRESS || tx.accountNonce == L.Nonce(l, tx.sender) + 1)
    && minFee <= tx.fee
  }

  /** The pure checks pass exactly for authentic transactions, and otherwise the first one that fails is reported. */
  lemma PureExactly(v: Validator, tx: Transaction)
    requires v.difficulty <= 255
    ensures ValidatePure(v, tx).None? <==> Authentic(v, tx)
    ensures ValidatePure(v, tx) == Some(InvalidPoW(v.difficulty)) <==> !Worked(v, tx)
    ensures ValidatePure(v, tx) == Some(InvalidSignature) <==> Worked(v, tx) && !v.oracles.signatureOk(tx)
    ensures ValidatePure(v, tx) == Some(Overflow) <==>
              && Worked(v, tx) && v.oracles.signatureOk(tx) && tx.amount + tx.fee > U64_MAX
              && |tx.publicKey| >= 32 && P.BigEndian(tx.publicKey[..32]) == tx.sender.value
  {
  }

  /** The whole gate passes exactly for an authentic transaction that the DAG can take and the sender can pay, and it
    * reports in that order. */
  lemma GateExactly(v: Validator, tx: Transaction, txs: Transactions, l: L.LedgerState, minFee: u64)
    requires v.difficulty <= 255
    ensures ValidateFull(v, tx, txs, l, minFee).None? <==>
              Authentic(v, tx) && Attachable(tx, txs) && Affordable(tx, l, minFee)
    ensures ValidateFull(v, tx, txs, l, minFee)
         == if !Authentic(v, tx) then ValidatePure(v, tx)
            else if !Attachable(tx, txs) then ValidateDag(tx, txs)
            else ValidateLedger(tx, l, minFee)
  {
    if ValidateDag(tx, txs).None? {
      forall id | id in txs
        ensures txs[id].parents == tx.parents ==> tx.parents == Parents(GENESIS, GENESIS)
        ensures txs[id].sender == tx.sender && txs[id].accountNonce == tx.accountNonce ==> tx.sender == FAUCET_ADDRESS
      {
      }
    }
  }

  /** The DAG refuses exactly the transactions that it cannot take, and reports the first of: a known id, an unknown first
    * or second parent, a used pair of parents, a used nonce. */
  lemma InsertionExactly(tx: Transaction, txs: Transactions)
    ensures var (e, p, q) := (D.InsertError(txs, tx), tx.parents.first, tx.parents.second);
            && (e.None? <==> Attachable(tx, txs))
            && (e == Some(D.Duplicate(tx.id)) <==> tx.id in txs)
            && (e == Some(D.ParentMissing(0, p)) <==> tx.id !in txs && p != GENESIS && p !in txs)
            && (e == Some(D.ParentMissing(1, q)) <==>
                  tx.id !in txs && (p == GENESIS || p in txs) && q != GENESIS && q !in txs)
            && (e == Some(D.ParentsUsed) <==>
                  && tx.id !in txs && (p == GENESIS || p in txs) && (q == GENESIS || q in txs)
                  && (p != GENESIS || q != GENESIS) && exists id :: id in txs && txs[id].parents == tx.parents)
  {
  }

  /** The gate reports what the insertion would. */
  function Reported(e: Option<D.DagError>): Option<ValidationError> {
    match e
    case None => None
    case Some(Duplicate(id)) => Some(DuplicateTransaction(id))
    case Some(ParentMissing(i, p)) => Some(MissingParent(i, p))
    case Some(ParentsUsed) => Some(DoubleSpend)
    case Some(SenderConflict) => Some(ValidationError.SenderConflict)
  }

  lemma GateMatchesInsertion(tx: Transaction, txs: Transactions)
    ensures ValidateDag(tx, txs) == Reported(D.InsertError(txs, tx))
  {
  }

  /** Which ledger check is reported: first the balance, then the nonce, then the fee. */
  lemma LedgerReports(tx: Transaction, l: L.LedgerState, minFee: u64)
    requires tx.amount + tx.fee <= U64_MAX
    ensures var (e, funds) := (ValidateLedger(tx, l, minFee), L.Balance(l, tx.sender));
            var last: nat := L.Nonce(l, tx.sender);
            var nextNonce := tx.sender == FAUCET_ADDRESS || tx.accountNonce == last + 1;
            && (e.None? <==> Affordable(tx, l, minFee))
            && (e == Some(InsufficientBalance(tx.amount + tx.fee, funds)) <==> funds < tx.amount + tx.fee)
            && (e == Some(InvalidNonce(last + 1, tx.accountNonce)) <==> tx.amount + tx.fee <= funds && !nextNonce)
            && (e == Some(InsufficientFee(minFee, tx.fee)) <==> tx.amount + tx.fee <= funds && nextNonce && tx.fee < minFee)
  {
  }
}
