/** Parent links between stored transactions, and the orders that make them acyclic. */
module Paths {
  import opened Types
  import opened Bags

  /** Transaction c is stored and names p as one of its two parents. */
  predicate IsParent(txs: Transactions, p: TransactionId, c: TransactionId) {
    c in txs && (txs[c].parents.first == p || txs[c].parents.second == p)
  }

  /** How often c names p as a parent: 0, 1 or 2. */
  function ParentSlots(txs: Transactions, p: TransactionId, c: TransactionId): nat {
    if c !in txs then 0
    else (if txs[c].parents.first == p then 1 else 0) + (if txs[c].parents.second == p then 1 else 0)
  }

  /** Following n parent links can lead from a to b. */
  ghost predicate Above(txs: Transactions, n: nat, a: TransactionId, b: TransactionId) {
    if n == 0 then a == b
    else a in txs && (Above(txs, n - 1, txs[a].parents.first, b) || Above(txs, n - 1, txs[a].parents.second, b))
  }

  ghost predicate Reaches(txs: Transactions, from: TransactionId, to: TransactionId) {
    exists n: nat :: Above(txs, n, from, to)
  }

  ghost predicate StrictAncestor(txs: Transactions, a: TransactionId, c: TransactionId) {
    exists n: nat :: n >= 1 && Above(txs, n, c, a)
  }

  ghost function StrictDescendants(txs: Transactions, id: TransactionId): set<TransactionId> {
    set c | c in txs && StrictAncestor(txs, id, c)
  }

  /** No transaction is its own strict ancestor. */
  ghost predicate Acyclic(txs: Transactions) {
    forall n: nat, id :: n >= 1 ==> !Above(txs, n, id, id)
  }

  /** One more link at the far end. */
  lemma {:induction false} AboveExtend(txs: Transactions, n: nat, a: TransactionId, b: TransactionId, c: TransactionId)
    requires Above(txs, n, a, b) && IsParent(txs, c, b)
    ensures Above(txs, n + 1, a, c)
  {
    if n == 0 {
      assert Above(txs, 0, c, c);
    } else if Above(txs, n - 1, txs[a].parents.first, b) {
      AboveExtend(txs, n - 1, txs[a].parents.first, b, c);
    } else {
      AboveExtend(txs, n - 1, txs[a].parents.second, b, c);
    }
  }

  lemma {:induction false} AboveTransitive(txs: Transactions, m: nat, n: nat, a: TransactionId, b: TransactionId,
                                           c: TransactionId)
    requires Above(txs, m, a, b) && Above(txs, n, b, c)
    ensures Above(txs, m + n, a, c)
  {
    if m > 0 {
      if Above(txs, m - 1, txs[a].parents.first, b) {
        AboveTransitive(txs, m - 1, n, txs[a].parents.first, b, c);
      } else {
        AboveTransitive(txs, m - 1, n, txs[a].parents.second, b, c);
      }
    }
  }

  /** Links of a smaller store survive in a larger one. */
  lemma {:induction false} AboveMonotone(small: Transactions, large: Transactions, n: nat, a: TransactionId, b: TransactionId)
    requires forall id :: id in small ==> id in large && large[id] == small[id]
    requires Above(small, n, a, b)
    ensures Above(large, n, a, b)
  {
    if n > 0 {
      if Above(small, n - 1, small[a].parents.first, b) {
        AboveMonotone(small, large, n - 1, small[a].parents.first, b);
      } else {
        AboveMonotone(small, large, n - 1, small[a].parents.second, b);
      }
    }
  }

  /** A set closed under parents that holds `from` holds everything `from` reaches. */
  lemma {:induction false} ClosedUnderParents(txs: Transactions, s: set<TransactionId>, n: nat,
                                              from: TransactionId, to: TransactionId)
    requires from in s
    requires forall v, p :: v in s && IsParent(txs, p, v) ==> p in s
    requires Above(txs, n, from, to)
    ensures to in s
  {
    if n > 0 {
      assert IsParent(txs, txs[from].parents.first, from) && IsParent(txs, txs[from].parents.second, from);
      if Above(txs, n - 1, txs[from].parents.first, to) {
        ClosedUnderParents(txs, s, n - 1, txs[from].parents.first, to);
      } else {
        ClosedUnderParents(txs, s, n - 1, txs[from].parents.second, to);
      }
    }
  }

  /** A set closed under children that holds `id` holds everything that reaches `id`. */
  lemma {:induction false} ClosedUnderChildren(txs: Transactions, s: set<TransactionId>, n: nat, c: TransactionId,
                                               id: TransactionId)
    requires id in s
    requires forall v, k :: v in s && IsParent(txs, v, k) ==> k in s
    requires Above(txs, n, c, id)
    ensures c in s
  {
    if n > 0 {
      var q := if Above(txs, n - 1, txs[c].parents.first, id) then txs[c].parents.first else txs[c].parents.second;
      ClosedUnderChildren(txs, s, n - 1, q, id);
      assert IsParent(txs, q, c);
    }
  }

  /** Every parent of every entry is genesis or the id of an earlier entry. */
  ghost predicate Topological(order: seq<Transaction>) {
    forall i :: 0 <= i < |order| ==>
      Earlier(order, i, order[i].parents.first) && Earlier(order, i, order[i].parents.second)
  }

  ghost predicate Earlier(order: seq<Transaction>, i: nat, p: TransactionId)
    requires i <= |order|
  {
    p == GENESIS || exists j :: 0 <= j < i && order[j].id == p
  }

  lemma TopologicalAppend(order: seq<Transaction>, tx: Transaction)
    requires Topological(order)
    requires Earlier(order, |order|, tx.parents.first) && Earlier(order, |order|, tx.parents.second)
    ensures Topological(order + [tx])
  {
    var longer := order + [tx];
    assert forall i :: 0 <= i < |order| ==> longer[i] == order[i];
    forall i | 0 <= i < |longer|
      ensures Earlier(longer, i, longer[i].parents.first) && Earlier(longer, i, longer[i].parents.second)
    {
      if i < |order| {
        EarlierInLonger(order, tx, i, order[i].parents.first);
        EarlierInLonger(order, tx, i, order[i].parents.second);
      } else {
        EarlierInLonger(order, tx, i, tx.parents.first);
        EarlierInLonger(order, tx, i, tx.parents.second);
      }
    }
  }

  lemma EarlierInLonger(order: seq<Transaction>, tx: Transaction, i: nat, p: TransactionId)
    requires i <= |order| && Earlier(order, i, p)
    ensures Earlier(order + [tx], i, p)
  {
    if p != GENESIS {
      var j :| 0 <= j < i && order[j].id == p;
      assert (order + [tx])[j].id == p;
    }
  }

  /** Every entry is a stored transaction. */
  ghost predicate Lists(txs: Transactions, order: seq<Transaction>) {
    forall i :: 0 <= i < |order| ==>
      order[i].id in txs && txs[order[i].id] == order[i] && order[i].id != GENESIS
  }

  /** Every stored transaction is an entry. */
  ghost predicate Covers(txs: Transactions, order: seq<Transaction>) {
    forall id :: id in txs ==> exists i :: 0 <= i < |order| && order[i].id == id
  }

  /** The order lists the stored transactions, each once, parents first. */
  ghost predicate InsertionOrder(txs: Transactions, order: seq<Transaction>) {
    Topological(order) && |order| == |txs| && Lists(txs, order) && Covers(txs, order)
  }

  ghost predicate Grown(txs: Transactions) {
    exists order :: InsertionOrder(txs, order)
  }

  /** Along n parent links the position in the insertion order drops by at least n. */
  lemma {:induction false} PositionDrops(txs: Transactions, order: seq<Transaction>, n: nat, i: nat, j: nat)
    requires InsertionOrder(txs, order) && i < |order| && j < |order|
    requires Above(txs, n, order[i].id, order[j].id)
    requires Distinct(order)
    ensures j + n <= i
  {
    if n > 0 {
      var q := if Above(txs, n - 1, order[i].parents.first, order[j].id) then order[i].parents.first else order[i].parents.second;
      assert Above(txs, n - 1, q, order[j].id);
      assert Earlier(order, i, q) && q != GENESIS;
      var k :| 0 <= k < i && order[k].id == q;
      PositionDrops(txs, order, n - 1, k, j);
    } else {
      assert i == j;
    }
  }

  ghost predicate Distinct(order: seq<Transaction>) {
    forall k, l :: 0 <= k < l < |order| ==> order[k].id != order[l].id
  }

  lemma {:induction false} DistinctOnce(order: seq<Transaction>, tx: Transaction)
    requires Distinct(order)
    ensures multiset(order)[tx] <= 1
  {
    if order != [] {
      LastInBag(order);
      DistinctOnce(order[..|order| - 1], tx);
      if tx == order[|order| - 1] {
        assert tx !in order[..|order| - 1];
      }
    }
  }

  lemma {:induction false} SeqSetSize<T>(s: seq<T>)
    ensures |set x | x in s| <= |s|
    ensures |set x | x in s| == |s| <==> forall i, j :: 0 <= i < j < |s| ==> s[i] != s[j]
  {
    if s == [] {
      assert (set x | x in s) == {};
    } else {
      var t := s[..|s| - 1];
      var last := s[|s| - 1];
      SeqSetSize(t);
      assert s == t + [last];
      if last in t {
        assert (set x | x in s) == (set x | x in t);
      } else {
        assert (set x | x in s) == (set x | x in t) + {last};
      }
    }
  }

  lemma InsertionOrderDistinct(txs: Transactions, order: seq<Transaction>)
    requires InsertionOrder(txs, order)
    ensures Distinct(order)
  {
    var ids := seq(|order|, i requires 0 <= i < |order| => order[i].id);
    SeqSetSize(ids);
    assert (set x | x in ids) == txs.Keys by {
      forall id | id in txs ensures id in ids {
        var i :| 0 <= i < |order| && order[i].id == id;
        assert ids[i] == id;
      }
    }
    assert |txs.Keys| == |txs|;
    forall k, l | 0 <= k < l < |order| ensures order[k].id != order[l].id {
      assert ids[k] != ids[l];
    }
  }

  /** A store that grew parents-first has no cycle, even through genesis. */
  lemma GrownIsAcyclic(txs: Transactions)
    requires Grown(txs)
    ensures Acyclic(txs)
  {
    var order: seq<Transaction> :| InsertionOrder(txs, order);
    InsertionOrderDistinct(txs, order);
    forall n: nat, id | n >= 1 ensures !Above(txs, n, id, id) {
      if Above(txs, n, id, id) {
        var i :| 0 <= i < |order| && order[i].id == id;
        PositionDrops(txs, order, n, i, i);
      }
    }
  }

  /** Between stored transactions a chain of links is shorter than the store. */
  lemma ChainShorterThanStore(txs: Transactions, n: nat, a: TransactionId, b: TransactionId)
    requires Grown(txs) && a in txs && b in txs && Above(txs, n, a, b)
    ensures n < |txs|
  {
    var order: seq<Transaction> :| InsertionOrder(txs, order);
    InsertionOrderDistinct(txs, order);
    var i :| 0 <= i < |order| && order[i].id == a;
    var j :| 0 <= j < |order| && order[j].id == b;
    PositionDrops(txs, order, n, i, j);
  }

  lemma MutualReachabilityIsEquality(txs: Transactions, a: TransactionId, b: TransactionId)
    requires Grown(txs) && Reaches(txs, a, b) && Reaches(txs, b, a)
    ensures a == b
  {
    var m: nat :| Above(txs, m, a, b);
    var n: nat :| Above(txs, n, b, a);
    AboveTransitive(txs, m, n, a, b, a);
    GrownIsAcyclic(txs);
  }
}
