/** Transactions on disk with an address index (src/storage.rs). */
module StorageModel {
  import opened Types

  /** address ++ id: keys of equal width, so a prefix scan is an exact match on the address. */
  datatype IndexKey = IndexKey(address: Address, id: TransactionId)

  datatype StorageState = StorageState(
    transactions: Transactions,
    balances: map<Address, u64>,
    index: map<IndexKey, TransactionId>)

  datatype BatchOperation =
    | PutTransaction(tx: Transaction)
    | DeleteTransaction(id: TransactionId)
    | PutBalance(address: Address, balance: u64)

  function IndexOf(tx: Transaction): map<IndexKey, TransactionId> {
    map[IndexKey(tx.sender, tx.id) := tx.id, IndexKey(tx.receiver, tx.id) := tx.id]
  }

  /** One operation on its own; deleting leaves the index entries behind. */
  function Apply(s: StorageState, op: BatchOperation): StorageState {
    match op
    case PutTransaction(tx) => s.(transactions := s.transactions[tx.id := tx], index := s.index + IndexOf(tx))
    case DeleteTransaction(id) => s.(transactions := s.transactions - {id})
    case PutBalance(a, b) => s.(balances := s.balances[a := b])
  }

  function ApplyAll(s: StorageState, ops: seq<BatchOperation>): StorageState {
    if ops == [] then s else Apply(ApplyAll(s, ops[..|ops| - 1]), ops[|ops| - 1])
  }

  // ---- the atomic batch: all puts, then all deletes, then balances and index ----

  function Puts(ops: seq<BatchOperation>): Transactions {
    if ops == [] then map[]
    else
      var before, op := Puts(ops[..|ops| - 1]), ops[|ops| - 1];
      if op.PutTransaction? then before[op.tx.id := op.tx] else before
  }

  function Deletes(ops: seq<BatchOperation>): set<TransactionId> {
    if ops == [] then {}
    else
      var before, op := Deletes(ops[..|ops| - 1]), ops[|ops| - 1];
      if op.DeleteTransaction? then before + {op.id} else before
  }

  function BalanceUpdates(ops: seq<BatchOperation>): map<Address, u64> {
    if ops == [] then map[]
    else
      var before, op := BalanceUpdates(ops[..|ops| - 1]), ops[|ops| - 1];
      if op.PutBalance? then before[op.address := op.balance] else before
  }

  function IndexUpdates(ops: seq<BatchOperation>): map<IndexKey, TransactionId> {
    if ops == [] then map[]
    else
      var before, op := IndexUpdates(ops[..|ops| - 1]), ops[|ops| - 1];
      if op.PutTransaction? then before + IndexOf(op.tx) else before
  }

  function Batch(s: StorageState, ops: seq<BatchOperation>): StorageState {
    StorageState((s.transactions + Puts(ops)) - Deletes(ops), s.balances + BalanceUpdates(ops), s.index + IndexUpdates(ops))
  }

  /** The last operation on an id stores it. */
  predicate EndsStored(ops: seq<BatchOperation>, id: TransactionId) {
    ops != [] &&
    var op := ops[|ops| - 1];
    (op.PutTransaction? && op.tx.id == id)
    || (!(op.DeleteTransaction? && op.id == id) && EndsStored(ops[..|ops| - 1], id))
  }

  /** Some id is deleted and later put back for good. */
  ghost predicate Revives(ops: seq<BatchOperation>) {
    exists id :: id in Deletes(ops) && EndsStored(ops, id)
  }

  /** What the operations one by one make of a single id. */
  lemma {:induction false} SequentialOutcome(s: StorageState, ops: seq<BatchOperation>, id: TransactionId)
    ensures var t := ApplyAll(s, ops).transactions;
            && (EndsStored(ops, id) ==> id in Puts(ops) && id in t && t[id] == Puts(ops)[id])
            && (!EndsStored(ops, id) && id in Deletes(ops) ==> id !in t)
            && (!EndsStored(ops, id) && id !in Deletes(ops) ==>
                  id !in Puts(ops) && (id in t <==> id in s.transactions) && (id in t ==> t[id] == s.transactions[id]))
  {
    if ops != [] {
      SequentialOutcome(s, ops[..|ops| - 1], id);
    }
  }

  lemma {:induction false} SameBalances(s: StorageState, ops: seq<BatchOperation>)
    ensures ApplyAll(s, ops).balances == s.balances + BalanceUpdates(ops)
  {
    if ops != [] {
      SameBalances(s, ops[..|ops| - 1]);
    }
  }

  lemma {:induction false} SameIndex(s: StorageState, ops: seq<BatchOperation>)
    ensures ApplyAll(s, ops).index == s.index + IndexUpdates(ops)
  {
    if ops != [] {
      var init, op := ops[..|ops| - 1], ops[|ops| - 1];
      SameIndex(s, init);
      if op.PutTransaction? {
        MergeAssociates(s.index, IndexUpdates(init), IndexOf(op.tx));
      }
    }
  }

  lemma MergeAssociates<K, V>(a: map<K, V>, b: map<K, V>, c: map<K, V>)
    ensures (a + b) + c == a + (b + c)
  {
  }

  /** The batch equals its operations one by one exactly when nothing is deleted and then put back. */
  lemma BatchIsSequential(s: StorageState, ops: seq<BatchOperation>)
    ensures Batch(s, ops) == ApplyAll(s, ops) <==> !Revives(ops)
  {
    var a, b := Batch(s, ops).transactions, ApplyAll(s, ops).transactions;
    SameBalances(s, ops);
    SameIndex(s, ops);
    if Revives(ops) {
      var id :| id in Deletes(ops) && EndsStored(ops, id);
      SequentialOutcome(s, ops, id);
      assert id !in a && id in b;
    } else {
      forall id ensures (id in a <==> id in b) && (id in a ==> a[id] == b[id]) {
        SequentialOutcome(s, ops, id);
      }
      assert a == b;
    }
  }

  lemma {:induction false} PutsAndDeletesAreListed(ops: seq<BatchOperation>, id: TransactionId)
    ensures id in Deletes(ops) ==> exists i :: 0 <= i < |ops| && ops[i] == DeleteTransaction(id)
    ensures EndsStored(ops, id) && id in Deletes(ops) ==>
              exists i, j :: 0 <= i < j < |ops| && ops[i] == DeleteTransaction(id) && ops[j].PutTransaction? && ops[j].tx.id == id
  {
    if ops != [] {
      var init, op := ops[..|ops| - 1], ops[|ops| - 1];
      PutsAndDeletesAreListed(init, id);
      if id in Deletes(init) {
        var i :| 0 <= i < |init| && init[i] == DeleteTransaction(id);
        assert ops[i] == DeleteTransaction(id);
        if op.PutTransaction? && op.tx.id == id {
          assert ops[|ops| - 1] == op;
        } else if EndsStored(ops, id) {
          var k, j :| 0 <= k < j < |init| && init[k] == DeleteTransaction(id) && init[j].PutTransaction? && init[j].tx.id == id;
          assert ops[k] == init[k] && ops[j] == init[j];
        }
      } else if id in Deletes(ops) {
        assert ops[|ops| - 1] == DeleteTransaction(id);
      }
    }
  }

  /** In particular when no put of an id follows a delete of it. */
  lemma BatchIsSequentialWithoutRevival(s: StorageState, ops: seq<BatchOperation>)
    requires forall i, j :: 0 <= i < j < |ops| && ops[i].DeleteTransaction? && ops[j].PutTransaction? ==> ops[i].id != ops[j].tx.id
    ensures Batch(s, ops) == ApplyAll(s, ops)
  {
    if Revives(ops) {
      var id :| id in Deletes(ops) && EndsStored(ops, id);
      PutsAndDeletesAreListed(ops, id);
    } else {
      BatchIsSequential(s, ops);
    }
  }

  // ---- the index over whole runs ----

  datatype Step = Single(op: BatchOperation) | Atomic(ops: seq<BatchOperation>)

  function Perform(s: StorageState, step: Step): StorageState {
    match step
    case Single(op) => Apply(s, op)
    case Atomic(ops) => Batch(s, ops)
  }

  function PerformAll(s: StorageState, steps: seq<Step>): StorageState {
    if steps == [] then s else Perform(PerformAll(s, steps[..|steps| - 1]), steps[|steps| - 1])
  }

  const EMPTY_STORAGE := StorageState(map[], map[], map[])

  /** An id always names the same transaction. */
  predicate Names(naming: TransactionId -> Transaction, op: BatchOperation) {
    op.PutTransaction? ==> op.tx == naming(op.tx.id)
  }

  ghost predicate NamesAll(naming: TransactionId -> Transaction, step: Step) {
    match step
    case Single(op) => Names(naming, op)
    case Atomic(ops) => forall op :: op in ops ==> Names(naming, op)
  }

  predicate Touches(tx: Transaction, a: Address) {
    tx.sender == a || tx.receiver == a
  }

  /** Every stored transaction is indexed under both parties, and index keys tell the truth. */
  ghost predicate Indexed(naming: TransactionId -> Transaction, s: StorageState) {
    && (forall id :: id in s.transactions ==>
          && s.transactions[id] == naming(id) && naming(id).id == id
          && IndexKey(naming(id).sender, id) in s.index && IndexKey(naming(id).receiver, id) in s.index)
    && (forall k :: k in s.index ==> s.index[k] == k.id && Touches(naming(k.id), k.address))
  }

  lemma {:induction false} BatchTables(naming: TransactionId -> Transaction, ops: seq<BatchOperation>)
    requires forall op :: op in ops ==> Names(naming, op)
    ensures forall id :: id in Puts(ops) ==>
              && Puts(ops)[id] == naming(id) && naming(id).id == id
              && IndexKey(naming(id).sender, id) in IndexUpdates(ops) && IndexKey(naming(id).receiver, id) in IndexUpdates(ops)
    ensures forall k :: k in IndexUpdates(ops) ==> IndexUpdates(ops)[k] == k.id && Touches(naming(k.id), k.address)
  {
    if ops != [] {
      var init, op := ops[..|ops| - 1], ops[|ops| - 1];
      assert ops == init + [op];
      assert op in ops;
      BatchTables(naming, init);
    }
  }

  lemma {:induction false} IndexStaysTrue(naming: TransactionId -> Transaction, steps: seq<Step>)
    requires forall step :: step in steps ==> NamesAll(naming, step)
    ensures Indexed(naming, PerformAll(EMPTY_STORAGE, steps))
  {
    if steps != [] {
      var init, step := steps[..|steps| - 1], steps[|steps| - 1];
      assert steps == init + [step];
      assert step in steps;
      IndexStaysTrue(naming, init);
      if step.Atomic? {
        BatchTables(naming, step.ops);
      }
    }
  }

  class Storage {
    var transactions: Transactions
    var balances: map<Address, u64>
    var index: map<IndexKey, TransactionId>

    ghost function State(): StorageState
      reads this
    {
      StorageState(transactions, balances, index)
    }

    constructor ()
      ensures State() == EMPTY_STORAGE
    {
      transactions, balances, index := map[], map[], map[];
    }

    method Put(tx: Transaction)
      modifies this
      ensures State() == Apply(old(State()), PutTransaction(tx))
    {
      transactions := transactions[tx.id := tx];
      index := index[IndexKey(tx.sender, tx.id) := tx.id];
      index := index[IndexKey(tx.receiver, tx.id) := tx.id];
    }

    method Delete(id: TransactionId)
      modifies this
      ensures State() == Apply(old(State()), DeleteTransaction(id))
    {
      transactions := transactions - {id};
    }

    method BatchWrite(ops: seq<BatchOperation>)
      modifies this
      ensures State() == Batch(old(State()), ops)
    {
      var txInserts: Transactions := map[];
      var txDeletes: set<TransactionId> := {};
      var balanceUpdates: map<Address, u64> := map[];
      var indexInserts: map<IndexKey, TransactionId> := map[];
      for i := 0 to |ops|
        invariant txInserts == Puts(ops[..i]) && txDeletes == Deletes(ops[..i])
        invariant balanceUpdates == BalanceUpdates(ops[..i]) && indexInserts == IndexUpdates(ops[..i])
      {
        assert ops[..i + 1][..i] == ops[..i];
        match ops[i]
        case PutTransaction(tx) =>
          txInserts := txInserts[tx.id := tx];
          indexInserts := indexInserts + IndexOf(tx);
        case DeleteTransaction(id) =>
          txDeletes := txDeletes + {id};
        case PutBalance(a, b) =>
          balanceUpdates := balanceUpdates[a := b];
      }
      assert ops[..|ops|] == ops;
      transactions := transactions + txInserts;
      transactions := transactions - txDeletes;
      balances := balances + balanceUpdates;
      index := index + indexInserts;
    }

    /** A prefix scan of the index, skipping ids that are no longer stored. */
    method GetTransactionsByAddress(a: Address, ghost naming: TransactionId -> Transaction) returns (found: seq<Transaction>)
      requires Indexed(naming, State())
      ensures forall tx :: tx in found <==> tx.id in transactions && transactions[tx.id] == tx && Touches(tx, a)
      ensures forall i, j :: 0 <= i < j < |found| ==> found[i] != found[j]
    {
      found := [];
      var keys := set k | k in index && k.address == a;
      ghost var all := keys;
      while keys != {}
        invariant keys <= all
        invariant forall tx :: tx in found <==>
                    tx.id in transactions && transactions[tx.id] == tx && IndexKey(a, tx.id) in all - keys
        invariant forall i, j :: 0 <= i < j < |found| ==> found[i] != found[j]
        decreases |keys|
      {
        var k :| k in keys;
        assert k == IndexKey(a, k.id);
        var id := index[k];
        if id in transactions {
          found := found + [transactions[id]];
        }
        keys := keys - {k};
      }
    }
  }
}
