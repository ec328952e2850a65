/** Counting descendants: cumulative weight and confirmations
  * (src/parent_selection.rs, src/consensus.rs). */
module Descendants {
  import opened Types
  import opened Bags
  import opened Paths
  import opened Dag
  import opened Sums

  /** id and everything that descends from it. */
  ghost function Below(txs: Transactions, id: TransactionId): set<TransactionId> {
    {id} + StrictDescendants(txs, id)
  }

  ghost function Weight(d: DagState, id: TransactionId): nat {
    1 + |StrictDescendants(d.transactions, id)|
  }

  function ChildList(d: DagState, id: TransactionId): seq<TransactionId> {
    GetOr(d.children, id, [])
  }

  ghost function EdgeMap(d: DagState, s: set<TransactionId>): map<TransactionId, int> {
    map v | v in s :: |ChildList(d, v)|
  }

  /** All child entries of the members of s. */
  ghost function EdgeSum(d: DagState, s: set<TransactionId>): int {
    MapSum(EdgeMap(d, s))
  }

  ghost function Confirmations(d: DagState, id: TransactionId): int {
    EdgeSum(d, Below(d.transactions, id))
  }

  lemma ChildIsBelow(txs: Transactions, id: TransactionId, v: TransactionId, c: TransactionId)
    requires v in Below(txs, id) && IsParent(txs, v, c)
    ensures c in StrictDescendants(txs, id)
  {
    if v == id {
      assert Above(txs, 0, id, id);
      OneStepUp(txs, c, v, 0, id);
    } else {
      var n: nat :| n >= 1 && Above(txs, n, v, id);
      OneStepUp(txs, c, v, n, id);
    }
  }

  lemma OneStepUp(txs: Transactions, c: TransactionId, v: TransactionId, n: nat, id: TransactionId)
    requires IsParent(txs, v, c) && Above(txs, n, v, id)
    ensures Above(txs, n + 1, c, id) && StrictAncestor(txs, id, c)
  {
    assert Above(txs, n + 1, c, id);
  }

  /** A set inside Below(id) that holds id and is closed under children is all of it. */
  lemma BelowIsTheClosure(txs: Transactions, id: TransactionId, s: set<TransactionId>)
    requires id in s && s <= Below(txs, id)
    requires forall v, k :: v in s && IsParent(txs, v, k) ==> k in s
    ensures s == Below(txs, id)
  {
    forall c | c in StrictDescendants(txs, id) ensures c in s {
      var n: nat :| n >= 1 && Above(txs, n, c, id);
      ClosedUnderChildren(txs, s, n, c, id);
    }
  }

  lemma BelowSize(txs: Transactions, id: TransactionId)
    requires Grown(txs)
    ensures |Below(txs, id)| == 1 + |StrictDescendants(txs, id)|
  {
    GrownIsAcyclic(txs);
    assert id !in StrictDescendants(txs, id);
  }

  // ---- cumulative weight: an explicit stack and a cache ----

  ghost predicate Descending(txs: Transactions, id: TransactionId, visited: set<TransactionId>, queue: seq<TransactionId>) {
    && visited <= Below(txs, id) && Within(queue, Below(txs, id))
    && (id in visited || id in queue)
    && (forall v, c :: v in visited && IsParent(txs, v, c) ==> c in visited || c in queue)
  }

  lemma DescendStart(txs: Transactions, id: TransactionId)
    ensures Descending(txs, id, {}, [id])
  {
  }

  lemma DescendDone(txs: Transactions, id: TransactionId, visited: set<TransactionId>)
    requires Grown(txs) && Descending(txs, id, visited, [])
    ensures |visited| == 1 + |StrictDescendants(txs, id)|
  {
    BelowIsTheClosure(txs, id, visited);
    BelowSize(txs, id);
  }

  lemma DescendSkip(txs: Transactions, id: TransactionId, visited: set<TransactionId>, queue: seq<TransactionId>)
    requires queue != [] && Descending(txs, id, visited, queue) && queue[|queue| - 1] in visited
    ensures Descending(txs, id, visited, queue[..|queue| - 1])
  {
    SplitLast(queue);
  }

  lemma DescendExpand(d: DagState, id: TransactionId, visited: set<TransactionId>, queue: seq<TransactionId>)
    requires ChildrenExact(d) && queue != [] && Descending(d.transactions, id, visited, queue)
    ensures var (rest, current) := (queue[..|queue| - 1], queue[|queue| - 1]);
            && (current == id || current in d.transactions)
            && Descending(d.transactions, id, visited + {current}, rest + ChildList(d, current))
  {
    var rest, current := queue[..|queue| - 1], queue[|queue| - 1];
    var list := ChildList(d, current);
    SplitLast(queue);
    assert forall x :: x in rest + list <==> x in rest || x in list;
    ChildKeys(d, current);
    assert current in Below(d.transactions, id);
    forall c | c in list ensures c in Below(d.transactions, id) {
      ChildIsBelow(d.transactions, id, current, c);
    }
  }

  // ---- confirmations: recursion over child entries ----

  ghost predicate ChildrenWithin(txs: Transactions, inner: set<TransactionId>, outer: set<TransactionId>) {
    forall v, c :: v in inner && IsParent(txs, v, c) ==> c in outer
  }

  lemma EdgeSumRemove(d: DagState, s: set<TransactionId>, x: TransactionId)
    requires x in s
    ensures EdgeSum(d, s) == |ChildList(d, x)| + EdgeSum(d, s - {x})
  {
    SumRemove(EdgeMap(d, s), x);
    assert EdgeMap(d, s) - {x} == EdgeMap(d, s - {x});
  }

  lemma {:induction false} EdgeSumUnion(d: DagState, a: set<TransactionId>, b: set<TransactionId>)
    requires a !! b
    ensures EdgeSum(d, a + b) == EdgeSum(d, a) + EdgeSum(d, b)
    decreases a
  {
    if a == {} {
      assert a + b == b && EdgeMap(d, a) == map[];
    } else {
      var x :| x in a;
      EdgeSumRemove(d, a + b, x);
      EdgeSumRemove(d, a, x);
      assert (a + b) - {x} == (a - {x}) + b;
      EdgeSumUnion(d, a - {x}, b);
    }
  }

  lemma EdgeSumOne(d: DagState, id: TransactionId)
    ensures EdgeSum(d, {id}) == |ChildList(d, id)|
  {
    EdgeSumRemove(d, {id}, id);
    assert {id} - {id} == {} && EdgeMap(d, {}) == map[];
  }

  /** What a part of the recursion adds to the visited set hangs below id. */
  ghost predicate Explored(d: DagState, id: TransactionId, before: set<TransactionId>, visited: set<TransactionId>) {
    && before <= visited
    && visited - before <= Below(d.transactions, id)
    && ChildrenWithin(d.transactions, visited - before, visited)
  }

  lemma ExploreChild(d: DagState, id: TransactionId, c: TransactionId, before: set<TransactionId>,
                     entered: set<TransactionId>, visited: set<TransactionId>)
    requires Explored(d, id, before, entered) && Explored(d, c, entered, visited) && IsParent(d.transactions, id, c)
    ensures Explored(d, id, before, visited)
    ensures EdgeSum(d, visited - before) == EdgeSum(d, entered - before) + EdgeSum(d, visited - entered)
  {
    ChildIsBelow(d.transactions, id, id, c);
    BelowOfBelow(d.transactions, id, c);
    assert visited - before == (entered - before) + (visited - entered);
    EdgeSumUnion(d, entered - before, visited - entered);
  }

  lemma ExploreNode(d: DagState, id: TransactionId, visited0: set<TransactionId>, visited: set<TransactionId>)
    requires ChildrenExact(d) && id !in visited0 && Explored(d, id, visited0 + {id}, visited)
    requires forall c :: c in ChildList(d, id) ==> c in visited
    ensures Explored(d, id, visited0, visited)
    ensures EdgeSum(d, visited - visited0) == |ChildList(d, id)| + EdgeSum(d, visited - (visited0 + {id}))
  {
    ChildKeys(d, id);
    assert visited - visited0 == {id} + (visited - (visited0 + {id}));
    EdgeSumUnion(d, {id}, visited - (visited0 + {id}));
    EdgeSumOne(d, id);
  }

  lemma NothingExplored(d: DagState, id: TransactionId, visited: set<TransactionId>)
    ensures Explored(d, id, visited, visited) && EdgeSum(d, visited - visited) == 0
  {
    assert visited - visited == {} && EdgeMap(d, {}) == map[];
  }

  /** Counts every child entry of every node first visited here. */
  method CountDescendantsRecursive(dag: DAG, id: TransactionId, visited0: set<TransactionId>, count0: nat,
                                   ghost space: set<TransactionId>)
    returns (visited: set<TransactionId>, count: nat)
    requires ChildrenExact(dag.State()) && id in space && dag.transactions.Keys <= space
    ensures id in visited && Explored(dag.State(), id, visited0, visited)
    ensures count == count0 + EdgeSum(dag.State(), visited - visited0)
    decreases |space - visited0|, 0
  {
    if id in visited0 {
      NothingExplored(dag.State(), id, visited0);
      return visited0, count0;
    }
    SubsetSize(space - (visited0 + {id}), space - visited0);
    visited, count := CountChildren(dag, id, visited0 + {id}, count0, space);
    ExploreNode(dag.State(), id, visited0, visited);
  }

  /** The loop over the child entries of one node. */
  method CountChildren(dag: DAG, id: TransactionId, before: set<TransactionId>, count0: nat, ghost space: set<TransactionId>)
    returns (visited: set<TransactionId>, count: nat)
    requires ChildrenExact(dag.State()) && dag.transactions.Keys <= space
    ensures forall c :: c in ChildList(dag.State(), id) ==> c in visited
    ensures Explored(dag.State(), id, before, visited)
    ensures count == count0 + |ChildList(dag.State(), id)| + EdgeSum(dag.State(), visited - before)
    decreases |space - before|, 1
  {
    ghost var d := dag.State();
    visited, count := before, count0;
    var children := GetOr(dag.children, id, []);
    ChildKeys(d, id);
    NothingExplored(d, id, before);
    for i := 0 to |children|
      invariant forall j :: 0 <= j < i ==> children[j] in visited
      invariant Explored(d, id, before, visited)
      invariant count == count0 + i + EdgeSum(d, visited - before)
    {
      ghost var entered := visited;
      assert children[i] in children;
      SubsetSizeLe(space - visited, space - before);
      visited, count := CountDescendantsRecursive(dag, children[i], visited, count + 1, space);
      ExploreChild(d, id, children[i], before, entered, visited);
    }
  }

  lemma BelowOfBelow(txs: Transactions, id: TransactionId, c: TransactionId)
    requires c in Below(txs, id)
    ensures Below(txs, c) <= Below(txs, id)
  {
    forall x | x in StrictDescendants(txs, c) ensures x in Below(txs, id) {
      if c != id {
        var m: nat :| m >= 1 && Above(txs, m, x, c);
        var n: nat :| n >= 1 && Above(txs, n, c, id);
        AboveTransitive(txs, m, n, x, c, id);
      }
    }
  }

  method CountConfirmations(dag: DAG, id: TransactionId) returns (count: nat)
    requires dag.Valid()
    ensures count == Confirmations(dag.State(), id)
    ensures var descendants := |StrictDescendants(dag.transactions, id)|;
            descendants <= count <= 2 * descendants
  {
    var visited: set<TransactionId>;
    visited, count := CountDescendantsRecursive(dag, id, {}, 0, dag.transactions.Keys + {id});
    assert visited - {} == visited;
    assert Explored(dag.State(), id, {}, visited);
    BelowIsTheClosure(dag.transactions, id, visited);
    ConfirmationBounds(dag.State(), id);
  }

  // ---- the bounds, by counting parent slots instead of child entries ----

  /** How many of c's two parent slots point into s. */
  function SlotsInto(txs: Transactions, c: TransactionId, s: set<TransactionId>): nat {
    if c !in txs then 0
    else (if txs[c].parents.first in s then 1 else 0) + (if txs[c].parents.second in s then 1 else 0)
  }

  ghost function SlotMap(txs: Transactions, s: set<TransactionId>): map<TransactionId, int> {
    map c | c in txs :: SlotsInto(txs, c, s)
  }

  ghost function SlotMapOf(txs: Transactions, v: TransactionId): map<TransactionId, int> {
    map c | c in txs :: ParentSlots(txs, v, c)
  }

  ghost function CountMap(s: seq<TransactionId>, keys: set<TransactionId>): map<TransactionId, int> {
    map c | c in keys :: multiset(s)[c]
  }

  lemma {:induction false} SizeByElement(s: seq<TransactionId>, keys: set<TransactionId>)
    requires forall x :: x in s ==> x in keys
    ensures |s| == MapSum(CountMap(s, keys))
  {
    if s == [] {
      SumZero(CountMap(s, keys));
    } else {
      var init, last := s[..|s| - 1], s[|s| - 1];
      assert s == init + [last];
      SizeByElement(init, keys);
      var fewer := CountMap(init, keys);
      assert last in keys;
      assert CountMap(s, keys) == fewer[last := fewer[last] + 1];
      SumUpdate(fewer, last, fewer[last] + 1);
    }
  }

  lemma {:induction false} SumZero(m: map<TransactionId, int>)
    requires forall c :: c in m ==> m[c] == 0
    ensures MapSum(m) == 0
    decreases m.Keys
  {
    if m != map[] {
      var c :| c in m;
      SumRemove(m, c);
      SumZero(m - {c});
    }
  }

  lemma ChildListSize(d: DagState, v: TransactionId)
    requires ChildrenExact(d)
    ensures |ChildList(d, v)| == MapSum(SlotMapOf(d.transactions, v))
  {
    ChildKeys(d, v);
    SizeByElement(ChildList(d, v), d.transactions.Keys);
    forall c | c in d.transactions ensures multiset(ChildList(d, v))[c] == ParentSlots(d.transactions, v, c) {
      assert ChildCount(d.children, v, c) == ParentSlots(d.transactions, v, c);
    }
    assert CountMap(ChildList(d, v), d.transactions.Keys) == SlotMapOf(d.transactions, v);
  }

  /** Double counting: child entries below a set are parent slots into it. */
  lemma {:induction false} EdgesAreSlots(d: DagState, s: set<TransactionId>)
    requires ChildrenExact(d)
    ensures EdgeSum(d, s) == MapSum(SlotMap(d.transactions, s))
    decreases s
  {
    if s == {} {
      SumZero(SlotMap(d.transactions, s));
      assert EdgeMap(d, s) == map[];
    } else {
      var v :| v in s;
      EdgesAreSlots(d, s - {v});
      EdgeSumRemove(d, s, v);
      ChildListSize(d, v);
      SumAdd(SlotMapOf(d.transactions, v), SlotMap(d.transactions, s - {v}), SlotMap(d.transactions, s));
    }
  }

  lemma {:induction false} SumRestrict(m: map<TransactionId, int>, part: map<TransactionId, int>)
    requires part.Keys <= m.Keys
    requires forall k :: k in m ==> m[k] == GetOr(part, k, 0)
    ensures MapSum(m) == MapSum(part)
    decreases m.Keys
  {
    if x :| x in m && x !in part {
      SumRemove(m, x);
      SumRestrict(m - {x}, part);
    } else {
      assert m.Keys == part.Keys;
      assert m == part;
    }
  }

  lemma SlotsOfDescendants(txs: Transactions, id: TransactionId, c: TransactionId)
    requires c in txs
    ensures c in StrictDescendants(txs, id) ==> 1 <= SlotsInto(txs, c, Below(txs, id)) <= 2
    ensures c !in StrictDescendants(txs, id) ==> SlotsInto(txs, c, Below(txs, id)) == 0
  {
    var p, q := txs[c].parents.first, txs[c].parents.second;
    if p in Below(txs, id) {
      ChildIsBelow(txs, id, p, c);
    }
    if q in Below(txs, id) {
      ChildIsBelow(txs, id, q, c);
    }
    if c in StrictDescendants(txs, id) {
      var n: nat :| n >= 1 && Above(txs, n, c, id);
      var r := if Above(txs, n - 1, p, id) then p else q;
      assert Above(txs, n - 1, r, id);
      if n - 1 >= 1 {
        assert r in txs;
      }
      assert r in Below(txs, id);
    }
  }

  function Constant(s: set<TransactionId>, n: int): map<TransactionId, int> {
    map c | c in s :: n
  }

  /** With D strict descendants the confirmation count lies between D and 2 D. */
  lemma ConfirmationBounds(d: DagState, id: TransactionId)
    requires ValidDag(d)
    ensures var n := |StrictDescendants(d.transactions, id)|;
            n <= Confirmations(d, id) <= 2 * n
  {
    EdgesAreSlots(d, Below(d.transactions, id));
    OnlyDescendantsHaveSlots(d.transactions, id);
    SumBetween(DescendantSlots(d.transactions, id), StrictDescendants(d.transactions, id));
  }

  ghost function DescendantSlots(txs: Transactions, id: TransactionId): map<TransactionId, int> {
    map c | c in StrictDescendants(txs, id) :: SlotsInto(txs, c, Below(txs, id))
  }

  lemma OnlyDescendantsHaveSlots(txs: Transactions, id: TransactionId)
    ensures MapSum(SlotMap(txs, Below(txs, id))) == MapSum(DescendantSlots(txs, id))
    ensures forall c :: c in DescendantSlots(txs, id) ==> 1 <= DescendantSlots(txs, id)[c] <= 2
  {
    var slots, part := SlotMap(txs, Below(txs, id)), DescendantSlots(txs, id);
    forall c | c in txs ensures slots[c] == GetOr(part, c, 0) && (c in part ==> 1 <= part[c] <= 2) {
      SlotsOfDescendants(txs, id, c);
    }
    SumRestrict(slots, part);
  }

  lemma SumBetween(m: map<TransactionId, int>, keys: set<TransactionId>)
    requires m.Keys == keys && forall c :: c in m ==> 1 <= m[c] <= 2
    ensures |keys| <= MapSum(m) <= 2 * |keys|
  {
    var ones, twos := Constant(keys, 1), Constant(keys, 2);
    assert ones.Keys == keys;
    SumOnes(ones);
    SumAdd(ones, ones, twos);
    SumLe(ones, m);
    SumLe(m, twos);
  }

  lemma DescendantsNeverLeave(d: DagState, tx: Transaction, id: TransactionId)
    ensures StrictDescendants(d.transactions, id) <= StrictDescendants(Insert(d, tx).transactions, id)
  {
    var txs' := Insert(d, tx).transactions;
    forall c | c in StrictDescendants(d.transactions, id) ensures c in StrictDescendants(txs', id) {
      var n: nat :| n >= 1 && Above(d.transactions, n, c, id);
      AboveMonotone(d.transactions, txs', n, c, id);
    }
  }

  /** Neither count ever falls when a transaction is added. */
  lemma CountsNeverFall(d: DagState, tx: Transaction, id: TransactionId)
    ensures Weight(d, id) <= Weight(Insert(d, tx), id)
    ensures Confirmations(d, id) <= Confirmations(Insert(d, tx), id)
  {
    var d' := Insert(d, tx);
    DescendantsNeverLeave(d, tx, id);
    SubsetSizeLe(StrictDescendants(d.transactions, id), StrictDescendants(d'.transactions, id));
    forall v ensures |ChildList(d, v)| <= |ChildList(d', v)| {
    }
    SumLe(EdgeMap(d, Below(d.transactions, id)), EdgeMap(d', Below(d'.transactions, id)));
  }
}
