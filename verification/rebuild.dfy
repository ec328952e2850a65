/** Rebuilding the DAG from an unordered list (src/node.rs). */
module Rebuilding {
  import opened Types
  import opened Paths
  import opened Dag
  import opened Bags

  datatype Pass = Pass(dag: DagState, pending: seq<Transaction>, progress: bool)

  datatype Outcome = Outcome(dag: DagState, pending: seq<Transaction>)

  predicate Ready(txs: Transactions, tx: Transaction) {
    ParentKnown(txs, tx.parents.first) && ParentKnown(txs, tx.parents.second)
  }

  /** One pass: try every transaction whose parents are known, keep the others. */
  function RunPass(d: DagState, todo: seq<Transaction>): (p: Pass)
    ensures |p.pending| <= |todo| && (p.progress ==> |p.pending| < |todo|)
  {
    if todo == [] then Pass(d, [], false)
    else
      var before := RunPass(d, todo[..|todo| - 1]);
      var tx := todo[|todo| - 1];
      if Ready(before.dag.transactions, tx) then Pass(Insert(before.dag, tx), before.pending, true)
      else Pass(before.dag, before.pending + [tx], before.progress)
  }

  /** Passes until one of them moves nothing. */
  function Rebuild(d: DagState, todo: seq<Transaction>): Outcome
    decreases |todo|
  {
    if todo == [] then Outcome(d, [])
    else
      var p := RunPass(d, todo);
      if p.progress then Rebuild(p.dag, p.pending) else Outcome(p.dag, p.pending)
  }

  // ---- what ought to be stored ----

  ghost predicate From(order: seq<Transaction>, list: seq<Transaction>) {
    forall i :: 0 <= i < |order| ==> order[i] in list
  }

  /** The ancestry of tx within the list goes all the way down to genesis. */
  ghost predicate Grounded(list: seq<Transaction>, tx: Transaction) {
    exists order :: Topological(order) && From(order, list) && tx in order
  }

  predicate Clash(a: Transaction, b: Transaction) {
    a != b && (
      || a.id == b.id
      || (a.parents == b.parents && a.parents != Parents(GENESIS, GENESIS))
      || (a.sender == b.sender && a.accountNonce == b.accountNonce && a.sender != FAUCET_ADDRESS))
  }

  /** No two grounded transactions contradict each other. */
  ghost predicate ConflictFree(list: seq<Transaction>) {
    forall a, b :: Grounded(list, a) && Grounded(list, b) ==> !Clash(a, b)
  }

  ghost predicate Stored(d: DagState, tx: Transaction) {
    tx.id in d.transactions && d.transactions[tx.id] == tx
  }

  ghost predicate HashedIds(list: seq<Transaction>) {
    forall tx :: tx in list ==> tx.id != GENESIS
  }

  /** A valid DAG all of whose transactions come from the list. */
  ghost predicate DrawnFrom(d: DagState, list: seq<Transaction>) {
    && ValidDag(d)
    && forall id :: id in d.transactions ==> d.transactions[id] in list && d.transactions[id].id == id
  }

  lemma StoredIsGrounded(d: DagState, list: seq<Transaction>, tx: Transaction)
    requires DrawnFrom(d, list) && Stored(d, tx)
    ensures Grounded(list, tx)
  {
    var order: seq<Transaction> :| InsertionOrder(d.transactions, order);
    var i :| 0 <= i < |order| && order[i].id == tx.id;
    assert From(order, list) && order[i] in order;
  }

  lemma StoredNeverClash(d: DagState, a: Transaction, b: Transaction)
    requires ValidDag(d) && Stored(d, a) && Stored(d, b)
    ensures !Clash(a, b)
  {
  }

  /** What is stored plus one ready transaction is grounded. */
  lemma ReadyIsGrounded(d: DagState, list: seq<Transaction>, tx: Transaction)
    requires DrawnFrom(d, list) && tx in list && Ready(d.transactions, tx)
    ensures Grounded(list, tx)
  {
    var order: seq<Transaction> :| InsertionOrder(d.transactions, order);
    var longer := order + [tx];
    KnownIsEarlier(d.transactions, order, tx.parents.first);
    KnownIsEarlier(d.transactions, order, tx.parents.second);
    TopologicalAppend(order, tx);
    assert longer[|order|] == tx;
    assert From(longer, list) && tx in longer;
  }

  /** The transaction had its turn: it is stored, or a stored rival keeps it out. */
  ghost predicate Settled(d: DagState, tx: Transaction) {
    && Ready(d.transactions, tx)
    && (Stored(d, tx) || exists other :: Stored(d, other) && Clash(tx, other))
  }

  /** Whatever d stores, e stores too. */
  ghost predicate Grows(d: DagState, e: DagState) {
    && d.transactions.Keys <= e.transactions.Keys
    && forall t :: Stored(d, t) ==> Stored(e, t)
  }

  /** Each transaction waits or had its turn. */
  ghost predicate Turned(d: DagState, todo: seq<Transaction>, pending: seq<Transaction>) {
    forall t :: t in todo ==> t in pending || Settled(d, t)
  }

  ghost predicate Waiting(d: DagState, pending: seq<Transaction>) {
    forall t :: t in pending ==> !Ready(d.transactions, t)
  }

  lemma SettledStays(d: DagState, e: DagState, tx: Transaction)
    requires Settled(d, tx) && Grows(d, e)
    ensures Settled(e, tx)
  {
    assert forall p :: ParentKnown(d.transactions, p) ==> ParentKnown(e.transactions, p);
  }

  lemma InsertOnlyGrows(d: DagState, tx: Transaction)
    ensures Grows(d, Insert(d, tx))
  {
  }

  lemma StoredIsReady(d: DagState, tx: Transaction)
    requires ValidDag(d) && Stored(d, tx)
    ensures Ready(d.transactions, tx)
  {
    ParentsAreKnown(d.transactions);
    assert IsParent(d.transactions, tx.parents.first, tx.id) && IsParent(d.transactions, tx.parents.second, tx.id);
  }

  /** A ready transaction is settled once it was tried. */
  lemma InsertSettles(d: DagState, list: seq<Transaction>, tx: Transaction)
    requires DrawnFrom(d, list) && HashedIds(list) && tx in list && Ready(d.transactions, tx)
    ensures DrawnFrom(Insert(d, tx), list) && Settled(Insert(d, tx), tx)
  {
    InsertKeepsValid(d, tx);
    if InsertError(d.transactions, tx).Some? {
      var other := ClashingStored(d, list, tx);
    } else {
      assert Stored(Insert(d, tx), tx);
      StoredIsReady(Insert(d, tx), tx);
    }
  }

  /** A refused insertion of a ready transaction names a stored rival, or the transaction itself. */
  lemma ClashingStored(d: DagState, list: seq<Transaction>, tx: Transaction) returns (other: Transaction)
    requires DrawnFrom(d, list) && Ready(d.transactions, tx) && InsertError(d.transactions, tx).Some?
    ensures Stored(d, other) && (other == tx || Clash(tx, other))
  {
    var txs := d.transactions;
    if tx.id in txs {
      other := txs[tx.id];
    } else if HasTransactionWithParents(txs, tx.parents) {
      var id :| id in txs && txs[id].parents == tx.parents;
      other := txs[id];
    } else {
      var id :| id in txs && txs[id].sender == tx.sender && txs[id].accountNonce == tx.accountNonce;
      other := txs[id];
    }
  }

  lemma {:induction false} PassGrows(d: DagState, xs: seq<Transaction>, ys: seq<Transaction>)
    ensures Grows(RunPass(d, xs).dag, RunPass(d, xs + ys).dag)
  {
    if ys == [] {
      assert xs + ys == xs;
    } else {
      var init := ys[..|ys| - 1];
      assert (xs + ys)[..|xs + ys| - 1] == xs + init;
      PassGrows(d, xs, init);
      InsertOnlyGrows(RunPass(d, xs + init).dag, ys[|ys| - 1]);
    }
  }

  /** What one pass leaves behind. */
  lemma {:induction false} PassKeeps(d: DagState, todo: seq<Transaction>, list: seq<Transaction>)
    requires DrawnFrom(d, list) && HashedIds(list) && From(todo, list)
    ensures var p := RunPass(d, todo); DrawnFrom(p.dag, list) && From(p.pending, todo) && Turned(p.dag, todo, p.pending)
  {
    if todo != [] {
      var init, tx := todo[..|todo| - 1], todo[|todo| - 1];
      assert todo == init + [tx];
      PassKeeps(d, init, list);
      var before := RunPass(d, init);
      if Ready(before.dag.transactions, tx) {
        InsertSettles(before.dag, list, tx);
        InsertOnlyGrows(before.dag, tx);
        forall t | t in todo && t !in before.pending ensures Settled(RunPass(d, todo).dag, t) {
          if t in init {
            SettledStays(before.dag, Insert(before.dag, tx), t);
          }
        }
      }
    }
  }

  /** A pass that moves nothing tried nothing. */
  lemma {:induction false} PassIdles(d: DagState, todo: seq<Transaction>)
    requires !RunPass(d, todo).progress
    ensures RunPass(d, todo).dag == d && RunPass(d, todo).pending == todo && Waiting(d, todo)
  {
    if todo != [] {
      var init, tx := todo[..|todo| - 1], todo[|todo| - 1];
      assert todo == init + [tx];
      PassIdles(d, init);
    }
  }

  /** What the whole loop leaves behind. */
  ghost predicate Exhausted(list: seq<Transaction>, todo: seq<Transaction>, r: Outcome) {
    DrawnFrom(r.dag, list) && From(r.pending, todo) && Waiting(r.dag, r.pending) && Turned(r.dag, todo, r.pending)
  }

  lemma {:induction false} RebuildKeeps(d: DagState, todo: seq<Transaction>, list: seq<Transaction>)
    requires DrawnFrom(d, list) && HashedIds(list) && From(todo, list)
    ensures Exhausted(list, todo, Rebuild(d, todo)) && Grows(d, Rebuild(d, todo).dag)
    decreases |todo|
  {
    if todo != [] {
      PassKeeps(d, todo, list);
      var p := RunPass(d, todo);
      if p.progress {
        RebuildKeeps(p.dag, p.pending, list);
        var r := Rebuild(p.dag, p.pending);
        PassGrows(d, [], todo);
        assert [] + todo == todo;
        forall t | t in todo && t !in r.pending ensures Settled(r.dag, t) {
          if t !in p.pending {
            SettledStays(p.dag, r.dag, t);
          }
        }
      } else {
        PassIdles(d, todo);
      }
    }
  }

  lemma {:induction false} GroundedIsStored(d: DagState, list: seq<Transaction>, order: seq<Transaction>, i: nat)
    requires Topological(order) && i < |order|
    requires forall t :: t in order ==> Stored(d, t) || !Ready(d.transactions, t)
    ensures Stored(d, order[i])
    decreases i
  {
    assert order[i] in order;
    assert Earlier(order, i, order[i].parents.first) && Earlier(order, i, order[i].parents.second);
    if order[i].parents.first != GENESIS {
      var j :| 0 <= j < i && order[j].id == order[i].parents.first;
      GroundedIsStored(d, list, order, j);
    }
    if order[i].parents.second != GENESIS {
      var j :| 0 <= j < i && order[j].id == order[i].parents.second;
      GroundedIsStored(d, list, order, j);
    }
  }

  ghost predicate StoresExactlyTheGrounded(list: seq<Transaction>) {
    forall tx :: Stored(Rebuild(EMPTY_DAG, list).dag, tx) <==> Grounded(list, tx)
  }

  lemma RebuildFromEmpty(list: seq<Transaction>)
    requires HashedIds(list)
    ensures Exhausted(list, list, Rebuild(EMPTY_DAG, list))
  {
    EmptyDagIsValid();
    RebuildKeeps(EMPTY_DAG, list, list);
  }

  /** What is left over is what still lacks a parent. */
  lemma OrphansLackAParent(list: seq<Transaction>, tx: Transaction)
    requires HashedIds(list)
    ensures var r := Rebuild(EMPTY_DAG, list);
            tx in r.pending <==> tx in list && !Ready(r.dag.transactions, tx)
  {
    RebuildFromEmpty(list);
  }

  /** In a list without conflicts whatever is settled is stored. */
  lemma SettledIsStored(d: DagState, list: seq<Transaction>, tx: Transaction)
    requires DrawnFrom(d, list) && ConflictFree(list) && tx in list && Settled(d, tx)
    ensures Stored(d, tx)
  {
    if !Stored(d, tx) {
      var other :| Stored(d, other) && Clash(tx, other);
      ReadyIsGrounded(d, list, tx);
      StoredIsGrounded(d, list, other);
    }
  }

  /** The loop stores exactly the grounded transactions, in whatever order they come,
    * exactly when no two of them conflict. */
  lemma RebuildIsExact(list: seq<Transaction>)
    requires HashedIds(list)
    ensures StoresExactlyTheGrounded(list) <==> ConflictFree(list)
  {
    RebuildFromEmpty(list);
    var d := Rebuild(EMPTY_DAG, list).dag;
    if ConflictFree(list) {
      forall tx ensures Stored(d, tx) <==> Grounded(list, tx) {
        if Stored(d, tx) {
          StoredIsGrounded(d, list, tx);
        }
        if Grounded(list, tx) {
          var order :| Topological(order) && From(order, list) && tx in order;
          var i :| 0 <= i < |order| && order[i] == tx;
          forall t | t in order ensures Stored(d, t) || !Ready(d.transactions, t) {
            if Settled(d, t) {
              SettledIsStored(d, list, t);
            }
          }
          GroundedIsStored(d, list, order, i);
        }
      }
    }
    if StoresExactlyTheGrounded(list) {
      forall a, b | Grounded(list, a) && Grounded(list, b) ensures !Clash(a, b) {
        StoredNeverClash(d, a, b);
      }
    }
  }

  /** The rest, and only the rest, is left as orphans. */
  lemma OrphansAreTheUngrounded(list: seq<Transaction>, tx: Transaction)
    requires HashedIds(list) && ConflictFree(list)
    ensures tx in Rebuild(EMPTY_DAG, list).pending <==> tx in list && !Grounded(list, tx)
  {
    RebuildIsExact(list);
    OrphansLackAParent(list, tx);
    RebuildFromEmpty(list);
    var d := Rebuild(EMPTY_DAG, list).dag;
    if Stored(d, tx) {
      StoredIsReady(d, tx);
    } else if tx in list && Ready(d.transactions, tx) {
      SettledIsStored(d, list, tx);
    }
  }

  /** Same edges, as multisets, and same tips. */
  ghost predicate SameShape(d: DagState, e: DagState) {
    && d.transactions == e.transactions
    && d.tips == e.tips
    && d.children.Keys == e.children.Keys
    && forall p :: p in d.children ==> multiset(d.children[p]) == multiset(e.children[p])
  }

  lemma SameStoredSameShape(d: DagState, e: DagState)
    requires ValidDag(d) && ValidDag(e)
    requires forall id :: id in d.transactions ==> d.transactions[id].id == id
    requires forall id :: id in e.transactions ==> e.transactions[id].id == id
    requires forall tx :: Stored(d, tx) <==> Stored(e, tx)
    ensures SameShape(d, e)
  {
    forall id ensures id in d.transactions <==> id in e.transactions {
      if id in d.transactions {
        assert Stored(d, d.transactions[id]);
      }
      if id in e.transactions {
        assert Stored(e, e.transactions[id]);
      }
    }
    forall id | id in d.transactions ensures d.transactions[id] == e.transactions[id] {
      assert Stored(d, d.transactions[id]);
    }
    assert d.transactions == e.transactions;
    IndexesAreDetermined(d, e);
  }

  // ---- when the order does not matter ----

  /** A parents-first listing without repetitions in which no two transactions contradict each other. */
  ghost predicate CleanOrder(list: seq<Transaction>, order: seq<Transaction>) {
    && Topological(order) && From(order, list) && Distinct(order)
    && forall a, b :: a in order && b in order ==> !Clash(a, b)
  }

  /** Some order of the list could store tx. */
  ghost predicate CleanlyGrounded(list: seq<Transaction>, tx: Transaction) {
    exists order :: CleanOrder(list, order) && tx in order
  }

  ghost predicate NoRivals(list: seq<Transaction>) {
    forall a, b :: CleanlyGrounded(list, a) && CleanlyGrounded(list, b) ==> !Clash(a, b)
  }

  lemma StoredIsClean(d: DagState, list: seq<Transaction>, tx: Transaction)
    requires DrawnFrom(d, list) && Stored(d, tx)
    ensures CleanlyGrounded(list, tx)
  {
    var order: seq<Transaction> :| InsertionOrder(d.transactions, order);
    InsertionOrderDistinct(d.transactions, order);
    var i :| 0 <= i < |order| && order[i].id == tx.id;
    assert order[i] in order;
    forall a, b | a in order && b in order ensures !Clash(a, b) {
      StoredNeverClash(d, a, b);
    }
    assert CleanOrder(list, order);
  }

  /** Without rivals the loop stores exactly what some order could store. */
  lemma CleanIsStored(list: seq<Transaction>, tx: Transaction)
    requires HashedIds(list) && NoRivals(list)
    ensures Stored(Rebuild(EMPTY_DAG, list).dag, tx) <==> CleanlyGrounded(list, tx)
  {
    RebuildFromEmpty(list);
    var d := Rebuild(EMPTY_DAG, list).dag;
    if Stored(d, tx) {
      StoredIsClean(d, list, tx);
    }
    if CleanlyGrounded(list, tx) {
      var order: seq<Transaction> :| CleanOrder(list, order) && tx in order;
      var i :| 0 <= i < |order| && order[i] == tx;
      forall t | t in order ensures Stored(d, t) || !Ready(d.transactions, t) {
        assert CleanlyGrounded(list, t);
        if Settled(d, t) && !Stored(d, t) {
          var other :| Stored(d, other) && Clash(t, other);
          StoredIsClean(d, list, other);
        }
      }
      GroundedIsStored(d, list, order, i);
    }
  }

  ghost predicate SameOutcome(a: Outcome, b: Outcome) {
    SameShape(a.dag, b.dag) && forall t :: t in a.pending <==> t in b.pending
  }

  lemma CleanIgnoresOrder(xs: seq<Transaction>, ys: seq<Transaction>, tx: Transaction)
    requires forall t :: t in xs ==> t in ys
    requires CleanlyGrounded(xs, tx)
    ensures CleanlyGrounded(ys, tx)
  {
    var order :| CleanOrder(xs, order) && tx in order;
    assert CleanOrder(ys, order);
  }

  /** Confluence: any two lists of the same transactions without rivals give the same DAG and orphans. */
  lemma RebuildIsConfluent(xs: seq<Transaction>, ys: seq<Transaction>)
    requires HashedIds(xs) && NoRivals(xs)
    requires forall t :: t in xs <==> t in ys
    ensures SameOutcome(Rebuild(EMPTY_DAG, xs), Rebuild(EMPTY_DAG, ys))
  {
    var x, y := Rebuild(EMPTY_DAG, xs), Rebuild(EMPTY_DAG, ys);
    forall t ensures CleanlyGrounded(xs, t) <==> CleanlyGrounded(ys, t) {
      if CleanlyGrounded(xs, t) { CleanIgnoresOrder(xs, ys, t); }
      if CleanlyGrounded(ys, t) { CleanIgnoresOrder(ys, xs, t); }
    }
    forall t ensures Stored(x.dag, t) <==> Stored(y.dag, t) {
      CleanIsStored(xs, t);
      CleanIsStored(ys, t);
    }
    RebuildFromEmpty(xs);
    RebuildFromEmpty(ys);
    SameStoredSameShape(x.dag, y.dag);
    forall t ensures t in x.pending <==> t in y.pending {
      OrphansLackAParent(xs, t);
      OrphansLackAParent(ys, t);
    }
  }

  /** Exactly the listed transactions are stored. */
  ghost predicate Holds(txs: Transactions, order: seq<Transaction>) {
    && (forall t :: t in order ==> t.id in txs && txs[t.id] == t)
    && (forall id :: id in txs ==> txs[id] in order && txs[id].id == id)
  }

  /** A clean order is stored in one pass. */
  lemma {:induction false} CleanPass(list: seq<Transaction>, order: seq<Transaction>)
    requires CleanOrder(list, order)
    ensures Holds(RunPass(EMPTY_DAG, order).dag.transactions, order)
  {
    if order != [] {
      var init, tx := order[..|order| - 1], order[|order| - 1];
      assert order == init + [tx];
      assert CleanOrder(list, init) by {
        assert forall i :: 0 <= i < |init| ==> init[i] == order[i];
        forall i | 0 <= i < |init| ensures Earlier(init, i, init[i].parents.first) && Earlier(init, i, init[i].parents.second) {
          assert Earlier(order, i, order[i].parents.first) && Earlier(order, i, order[i].parents.second);
          EarlierInPrefix(order, |init|, i, order[i].parents.first);
          EarlierInPrefix(order, |init|, i, order[i].parents.second);
        }
      }
      CleanPass(list, init);
      CleanStep(RunPass(EMPTY_DAG, init).dag, init, tx);
    }
  }

  lemma EarlierInPrefix(order: seq<Transaction>, n: nat, i: nat, p: TransactionId)
    requires i <= n <= |order| && Earlier(order, i, p)
    ensures Earlier(order[..n], i, p)
  {
    if p != GENESIS {
      var j :| 0 <= j < i && order[j].id == p;
      assert order[..n][j].id == p;
    }
  }

  lemma CleanStep(d: DagState, init: seq<Transaction>, tx: Transaction)
    requires Holds(d.transactions, init)
    requires Earlier(init, |init|, tx.parents.first) && Earlier(init, |init|, tx.parents.second)
    requires forall t :: t in init ==> t.id != tx.id && !Clash(tx, t)
    ensures Ready(d.transactions, tx) && Holds(Insert(d, tx).transactions, init + [tx])
  {
    assert InsertError(d.transactions, tx).None?;
  }

  /** A clean order that comes first is stored, whatever follows. */
  lemma CleanPrefixIsStored(list: seq<Transaction>, order: seq<Transaction>, rest: seq<Transaction>, tx: Transaction)
    requires CleanOrder(list, order) && HashedIds(order + rest) && tx in order
    ensures Stored(Rebuild(EMPTY_DAG, order + rest).dag, tx)
  {
    var xs := order + rest;
    CleanPass(list, order);
    PassGrows(EMPTY_DAG, order, rest);
    var p := RunPass(EMPTY_DAG, xs);
    assert Stored(p.dag, tx);
    if p.progress {
      EmptyDagIsValid();
      PassKeeps(EMPTY_DAG, xs, xs);
      RebuildKeeps(p.dag, p.pending, xs);
    }
  }

  lemma CleanOrderFits(list: seq<Transaction>, order: seq<Transaction>)
    requires CleanOrder(list, order)
    ensures multiset(order) <= multiset(list)
  {
    forall t ensures multiset(order)[t] <= multiset(list)[t] {
      DistinctOnce(order, t);
      if t in order {
        assert t in multiset(list);
      }
    }
  }

  /** Some permutation of the list stores tx. */
  lemma CleanFirst(list: seq<Transaction>, tx: Transaction) returns (xs: seq<Transaction>)
    requires HashedIds(list) && CleanlyGrounded(list, tx)
    ensures multiset(xs) == multiset(list) && Stored(Rebuild(EMPTY_DAG, xs).dag, tx)
  {
    var order: seq<Transaction> :| CleanOrder(list, order) && tx in order;
    CleanOrderFits(list, order);
    var rest := ListBag(multiset(list) - multiset(order));
    xs := order + rest;
    assert multiset(xs) == multiset(order) + multiset(rest);
    SameMembers(xs, list);
    CleanPrefixIsStored(list, order, rest, tx);
  }

  ghost predicate OrderFree(list: seq<Transaction>) {
    forall xs: seq<Transaction> :: multiset(xs) == multiset(list) ==>
      SameOutcome(Rebuild(EMPTY_DAG, xs), Rebuild(EMPTY_DAG, list))
  }

  /** Every permutation rebuilds the same DAG and orphans exactly when no two transactions
    * that some order could store contradict each other. */
  lemma OrderFreeExactly(list: seq<Transaction>)
    requires HashedIds(list)
    ensures OrderFree(list) <==> NoRivals(list)
  {
    if NoRivals(list) {
      forall xs: seq<Transaction> | multiset(xs) == multiset(list)
        ensures SameOutcome(Rebuild(EMPTY_DAG, xs), Rebuild(EMPTY_DAG, list))
      {
        SameMembers(xs, list);
        RebuildIsConfluent(list, xs);
      }
    }
    if OrderFree(list) {
      forall a, b | CleanlyGrounded(list, a) && CleanlyGrounded(list, b) ensures !Clash(a, b) {
        var xs := CleanFirst(list, a);
        var ys := CleanFirst(list, b);
        RebuildFromEmpty(list);
        StoredNeverClash(Rebuild(EMPTY_DAG, list).dag, a, b);
      }
    }
  }

  /** Without conflicts there are no rivals, but a conflict need not make rivals:
    * a transaction that contradicts its own parent never has a chance. */
  lemma ConflictFreeHasNoRivals(list: seq<Transaction>)
    requires ConflictFree(list)
    ensures NoRivals(list)
  {
    forall a | CleanlyGrounded(list, a) ensures Grounded(list, a) {
      var order: seq<Transaction> :| CleanOrder(list, order) && a in order;
    }
  }

  lemma HopelessConflict(r: Transaction, e: Transaction)
    requires r.parents == Parents(GENESIS, GENESIS) && e.parents == Parents(r.id, GENESIS) && r.id != GENESIS
    requires r.id != e.id && e.id != GENESIS
    requires r.sender == e.sender != FAUCET_ADDRESS && r.accountNonce == e.accountNonce
    ensures NoRivals([r, e]) && !ConflictFree([r, e])
  {
    forall tx | CleanlyGrounded([r, e], tx) ensures tx == r {
      var order: seq<Transaction> :| CleanOrder([r, e], order) && tx in order;
      if e in order {
        var i :| 0 <= i < |order| && order[i] == e;
        assert Earlier(order, i, r.id);
        var j :| 0 <= j < i && order[j].id == r.id;
        assert order[j] == r && r in order;
        assert Clash(r, e);
      }
    }
    var order := [r, e];
    assert order[0] == r && order[1] == e;
    assert Topological(order) && From(order, order);
    assert Grounded(order, r) && Grounded(order, e) && Clash(r, e);
  }

  /** Round trip: the transactions of a valid DAG, in any order, give that DAG back, without orphans. */
  lemma RebuildRestoresTheDag(d: DagState, list: seq<Transaction>)
    requires ValidDag(d)
    requires forall tx :: tx in list <==> Stored(d, tx)
    ensures SameShape(Rebuild(EMPTY_DAG, list).dag, d)
    ensures Rebuild(EMPTY_DAG, list).pending == []
  {
    var order: seq<Transaction> :| InsertionOrder(d.transactions, order);
    forall id | id in d.transactions ensures d.transactions[id].id == id && d.transactions[id] in order {
      var i :| 0 <= i < |order| && order[i].id == id;
      assert order[i] in order;
    }
    GenesisIsNotStored(d.transactions);
    assert From(order, list);
    forall tx ensures Grounded(list, tx) <==> Stored(d, tx) {
      if Grounded(list, tx) {
        var other :| Topological(other) && From(other, list) && tx in other;
      }
    }
    forall a, b | Grounded(list, a) && Grounded(list, b) ensures !Clash(a, b) {
      StoredNeverClash(d, a, b);
    }
    RebuildIsExact(list);
    RebuildFromEmpty(list);
    SameStoredSameShape(Rebuild(EMPTY_DAG, list).dag, d);
    var pending := Rebuild(EMPTY_DAG, list).pending;
    if pending != [] {
      assert pending[0] in pending;
      OrphansAreTheUngrounded(list, pending[0]);
    }
  }

  /** With a conflict the order decides: two first transactions of one sender. */
  lemma OrderDecidesConflicts(a: Transaction, b: Transaction)
    requires a.parents == b.parents == Parents(GENESIS, GENESIS)
    requires a.sender == b.sender != FAUCET_ADDRESS && a.accountNonce == b.accountNonce && a.id != b.id
    ensures Rebuild(EMPTY_DAG, [a, b]).dag.transactions == map[a.id := a]
    ensures Rebuild(EMPTY_DAG, [b, a]).dag.transactions == map[b.id := b]
  {
    FirstWins(a, b);
    FirstWins(b, a);
  }

  lemma FirstWins(a: Transaction, b: Transaction)
    requires a.parents == b.parents == Parents(GENESIS, GENESIS)
    requires a.sender == b.sender != FAUCET_ADDRESS && a.accountNonce == b.accountNonce && a.id != b.id
    ensures Rebuild(EMPTY_DAG, [a, b]).dag.transactions == map[a.id := a]
  {
    var d := Insert(EMPTY_DAG, a);
    assert d.transactions == map[a.id := a] && a.id in d.transactions;
    assert Insert(d, b) == d;
    assert [a, b][..1] == [a] && [a][..0] == [];
    assert RunPass(EMPTY_DAG, []) == Pass(EMPTY_DAG, [], false);
    assert RunPass(EMPTY_DAG, [a]) == Pass(d, [], true);
    assert RunPass(EMPTY_DAG, [a, b]) == Pass(d, [], true);
  }

  function OrphanMap(pending: seq<Transaction>): map<TransactionId, Transaction> {
    if pending == [] then map[]
    else OrphanMap(pending[..|pending| - 1])[pending[|pending| - 1].id := pending[|pending| - 1]]
  }

  /** The loop itself, ending with a recount of the tips. */
  method RebuildDag(dag: DAG, all: seq<Transaction>) returns (orphans: map<TransactionId, Transaction>)
    requires dag.State() == EMPTY_DAG && HashedIds(all)
    modifies dag
    ensures dag.State() == Rebuild(EMPTY_DAG, all).dag && dag.Valid()
    ensures orphans == OrphanMap(Rebuild(EMPTY_DAG, all).pending)
  {
    var remaining := all;
    var progress := true;
    while progress && remaining != []
      invariant progress ==> Rebuild(EMPTY_DAG, all) == Rebuild(dag.State(), remaining)
      invariant !progress ==> Rebuild(EMPTY_DAG, all) == Outcome(dag.State(), remaining)
      decreases |remaining|, progress
    {
      ghost var start := dag.State();
      progress := false;
      var stillPending := [];
      for i := 0 to |remaining|
        invariant RunPass(start, remaining[..i]) == Pass(dag.State(), stillPending, progress)
      {
        var tx := remaining[i];
        assert remaining[..i + 1][..i] == remaining[..i];
        if (tx.parents.first == GENESIS || tx.parents.first in dag.transactions)
           && (tx.parents.second == GENESIS || tx.parents.second in dag.transactions) {
          var added := dag.AddTransactionValidated(tx);
          progress := true;
        } else {
          stillPending := stillPending + [tx];
        }
      }
      assert remaining[..|remaining|] == remaining;
      remaining := stillPending;
    }
    orphans := map[];
    for i := 0 to |remaining|
      invariant orphans == OrphanMap(remaining[..i])
    {
      assert remaining[..i + 1][..i] == remaining[..i];
      orphans := orphans[remaining[i].id := remaining[i]];
    }
    assert remaining[..|remaining|] == remaining;
    RebuildFromEmpty(all);
    dag.RebuildTips();
  }
}
