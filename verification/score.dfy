/** Heavy-subgraph scores in exact reals (src/consensus.rs). */
module Scoring {
  import opened Types
  import opened Paths
  import opened Bags
  import opened Dag
  import opened BoundedSearch

  const MAX_DEPTH: nat := 1000

  type Reputations = map<Address, real>

  /** weight times reputation of a stored transaction; 0 for anything else. */
  function Worth(txs: Transactions, reps: Reputations, id: TransactionId): real {
    if id in txs then txs[id].weight * GetOr(reps, txs[id].sender, 0.5) else 0.0
  }

  ghost predicate NonNegative(txs: Transactions, reps: Reputations) {
    && (forall id :: id in txs ==> txs[id].weight >= 0.0)
    && (forall a :: a in reps ==> reps[a] >= 0.0)
  }

  function DepthFactor(depth: nat): real {
    1.0 + (depth as real / 1000.0) * 0.5
  }

  ghost function RealSum(m: map<TransactionId, real>): real
    decreases m.Keys
  {
    if m == map[] then 0.0
    else
      var id :| id in m;
      m[id] + RealSum(m - {id})
  }

  lemma {:induction false} RealSumRemove(m: map<TransactionId, real>, id: TransactionId)
    requires id in m
    ensures RealSum(m) == m[id] + RealSum(m - {id})
    decreases m.Keys
  {
    var j :| j in m && RealSum(m) == m[j] + RealSum(m - {j});
    if j != id {
      RealSumRemove(m - {j}, id);
      RealSumRemove(m - {id}, j);
      assert m - {j} - {id} == m - {id} - {j};
    }
  }

  /** The worth of a set of nodes together. */
  ghost function Base(txs: Transactions, reps: Reputations, s: set<TransactionId>): real {
    RealSum(map id | id in s :: Worth(txs, reps, id))
  }

  /** Entries that are not stored weigh nothing. */
  lemma {:induction false} BaseOfStored(txs: Transactions, reps: Reputations, s: set<TransactionId>)
    ensures Base(txs, reps, s) == Base(txs, reps, s * txs.Keys)
    decreases s
  {
    if x :| x in s && x !in txs {
      var m := map id | id in s :: Worth(txs, reps, id);
      RealSumRemove(m, x);
      assert m - {x} == map id | id in s - {x} :: Worth(txs, reps, id);
      BaseOfStored(txs, reps, s - {x});
      assert (s - {x}) * txs.Keys == s * txs.Keys;
    } else {
      assert s * txs.Keys == s;
    }
  }

  /** The score lies between the base and one and a half times the base. */
  predicate Within(low: real, score: real) {
    low <= score <= 1.5 * low
  }

  lemma FactorBounds(worth: real, factor: real)
    requires worth >= 0.0 && 1.0 <= factor <= 1.5
    ensures Within(worth, worth * factor)
  {
    MultiplyMonotone(worth, 1.0, factor);
    MultiplyMonotone(worth, factor, 1.5);
  }

  lemma MultiplyMonotone(w: real, x: real, y: real)
    requires w >= 0.0 && x <= y
    ensures w * x <= w * y
  {
  }

  /** Every stored ancestor of id is met before the depth limit. */
  ghost predicate Shallow(txs: Transactions, id: TransactionId, depth: nat) {
    forall n: nat, v :: Above(txs, n, id, v) && v in txs ==> depth + n <= MAX_DEPTH
  }

  lemma ShallowParent(txs: Transactions, id: TransactionId, depth: nat, p: TransactionId)
    requires Shallow(txs, id, depth) && IsParent(txs, p, id)
    ensures Shallow(txs, p, depth + 1) && (p in txs ==> depth + 1 <= MAX_DEPTH)
  {
    forall n: nat, v | Above(txs, n, p, v) && v in txs ensures depth + 1 + n <= MAX_DEPTH {
      assert Above(txs, n + 1, id, v);
    }
    assert Above(txs, 0, p, p);
  }

  lemma SmallStoreIsShallow(txs: Transactions, tip: TransactionId)
    requires Grown(txs) && |txs| <= MAX_DEPTH + 1 && tip in txs
    ensures Shallow(txs, tip, 0)
  {
    forall n: nat, v | Above(txs, n, tip, v) && v in txs ensures n <= MAX_DEPTH {
      ChainShorterThanStore(txs, n, tip, v);
    }
  }

  ghost predicate ParentsWithin(txs: Transactions, inner: set<TransactionId>, outer: set<TransactionId>) {
    forall v, p :: v in inner && IsParent(txs, p, v) && p in txs ==> p in outer
  }

  /** After the node itself and both its parents, everything new is closed. */
  lemma ClosedTogether(txs: Transactions, id: TransactionId, v0: set<TransactionId>, v2: set<TransactionId>,
                       v3: set<TransactionId>)
    requires id in txs && v0 + {id} <= v2 <= v3
    requires txs[id].parents.first in txs ==> txs[id].parents.first in v2
    requires txs[id].parents.second in txs ==> txs[id].parents.second in v3
    requires ParentsWithin(txs, v2 - (v0 + {id}), v2) && ParentsWithin(txs, v3 - v2, v3)
    ensures ParentsWithin(txs, v3 - v0, v3)
  {
  }

  // ---- the recursion ----

  /** The nodes visited and the score added up so far. */
  datatype Scan = Scan(visited: set<TransactionId>, total: real)

  /** Visiting one node. */
  function Enter(txs: Transactions, reps: Reputations, id: TransactionId, depth: nat, s: Scan): Scan {
    Scan(s.visited + {id}, s.total + Worth(txs, reps, id) * DepthFactor(depth))
  }

  /** Each node once, weighed by its depth on first visit; nothing beyond the depth limit. */
  function ScanFrom(txs: Transactions, reps: Reputations, id: TransactionId, depth: nat, s: Scan): Scan
    decreases if depth > MAX_DEPTH then 0 else 1 + MAX_DEPTH - depth
  {
    if id in s.visited || depth > MAX_DEPTH then s
    else if id !in txs then Enter(txs, reps, id, depth, s)
    else
      var left := ScanFrom(txs, reps, txs[id].parents.first, depth + 1, Enter(txs, reps, id, depth, s));
      ScanFrom(txs, reps, txs[id].parents.second, depth + 1, left)
  }

  const START := Scan({}, 0.0)

  function Score(txs: Transactions, reps: Reputations, tip: TransactionId): real {
    ScanFrom(txs, reps, tip, 0, START).total
  }

  /** The nodes that count towards the score of a tip. */
  function Scanned(txs: Transactions, reps: Reputations, tip: TransactionId): set<TransactionId> {
    ScanFrom(txs, reps, tip, 0, START).visited
  }

  // ---- the score as a sum over the visited nodes ----

  function AtDepth(worth: real, depth: nat): real {
    worth * (1.0 + depth as real / 2000.0)
  }

  /** Worth times one plus a 2000th of the depth, over the nodes with a depth. */
  ghost function DepthSum(txs: Transactions, reps: Reputations, depths: map<TransactionId, nat>): real {
    RealSum(map id | id in depths :: AtDepth(Worth(txs, reps, id), depths[id]))
  }

  lemma DepthSumGrows(txs: Transactions, reps: Reputations, depths: map<TransactionId, nat>, id: TransactionId, depth: nat)
    requires id !in depths
    ensures DepthSum(txs, reps, depths[id := depth]) == DepthSum(txs, reps, depths) + AtDepth(Worth(txs, reps, id), depth)
  {
    var more := depths[id := depth];
    var m := map v | v in more :: AtDepth(Worth(txs, reps, v), more[v]);
    RealSumRemove(m, id);
    assert m - {id} == map v | v in depths :: AtDepth(Worth(txs, reps, v), depths[v]);
  }

  /** Every depth is within the limit and the length of a path of parent links from the tip. */
  ghost predicate PathDepths(txs: Transactions, tip: TransactionId, depths: map<TransactionId, nat>) {
    forall v :: v in depths ==> depths[v] <= MAX_DEPTH && Above(txs, depths[v], tip, v)
  }

  /** The scan so far gives these depths to the nodes it has visited. */
  ghost predicate Measured(txs: Transactions, reps: Reputations, tip: TransactionId, depths: map<TransactionId, nat>,
                           s: Scan) {
    depths.Keys == s.visited && DepthSum(txs, reps, depths) == s.total && PathDepths(txs, tip, depths)
  }

  lemma SameFactor(worth: real, depth: nat)
    ensures worth * DepthFactor(depth) == AtDepth(worth, depth)
  {
    assert DepthFactor(depth) == 1.0 + depth as real / 2000.0;
  }

  lemma MeasuredGrows(txs: Transactions, reps: Reputations, tip: TransactionId, id: TransactionId, depth: nat,
                      depths: map<TransactionId, nat>, s: Scan, added: real)
    requires Measured(txs, reps, tip, depths, s) && id !in s.visited
    requires depth <= MAX_DEPTH && Above(txs, depth, tip, id)
    requires DepthSum(txs, reps, depths[id := depth]) == DepthSum(txs, reps, depths) + added
    ensures Measured(txs, reps, tip, depths[id := depth], Scan(s.visited + {id}, s.total + added))
  {
    assert depths[id := depth].Keys == depths.Keys + {id};
  }

  lemma EnterTotal(txs: Transactions, reps: Reputations, id: TransactionId, depth: nat, s: Scan, worth: real)
    requires worth == Worth(txs, reps, id)
    ensures Enter(txs, reps, id, depth, s) == Scan(s.visited + {id}, s.total + AtDepth(worth, depth))
  {
    SameFactor(worth, depth);
  }

  lemma {:induction false} ScanMeasures(txs: Transactions, reps: Reputations, tip: TransactionId, id: TransactionId,
                                        depth: nat, before: map<TransactionId, nat>, s: Scan)
    returns (depths: map<TransactionId, nat>)
    requires Measured(txs, reps, tip, before, s) && Above(txs, depth, tip, id)
    ensures Measured(txs, reps, tip, depths, ScanFrom(txs, reps, id, depth, s))
    ensures forall v :: v in before ==> v in depths && depths[v] == before[v]
    ensures id !in before && depth <= MAX_DEPTH ==> id in depths && depths[id] == depth
    ensures id !in before && depth < MAX_DEPTH && id in txs
            && txs[id].parents.first !in before && txs[id].parents.first != id ==>
              txs[id].parents.first in depths && depths[txs[id].parents.first] == depth + 1
    decreases if depth > MAX_DEPTH then 0 else 1 + MAX_DEPTH - depth
  {
    depths := before;
    if id !in s.visited && depth <= MAX_DEPTH {
      EnterTotal(txs, reps, id, depth, s, Worth(txs, reps, id));
      DepthSumGrows(txs, reps, before, id, depth);
      MeasuredGrows(txs, reps, tip, id, depth, before, s, AtDepth(Worth(txs, reps, id), depth));
      depths := before[id := depth];
      if id in txs {
        var p, q, entered := txs[id].parents.first, txs[id].parents.second, Enter(txs, reps, id, depth, s);
        AboveExtend(txs, depth, tip, id, p);
        AboveExtend(txs, depth, tip, id, q);
        depths := ScanMeasures(txs, reps, tip, p, depth + 1, depths, entered);
        depths := ScanMeasures(txs, reps, tip, q, depth + 1, depths, ScanFrom(txs, reps, p, depth + 1, entered));
      }
    }
  }

  /** The score of a tip is the sum, over the nodes that count, of worth times one plus a 2000th of the depth, where the
    * depth of a node is the length of a path to it from the tip, at most 1000. The tip is at depth 0 and its first parent
    * at depth 1. */
  lemma ScoreIsADepthSum(txs: Transactions, reps: Reputations, tip: TransactionId) returns (depths: map<TransactionId, nat>)
    ensures depths.Keys == Scanned(txs, reps, tip) && PathDepths(txs, tip, depths)
    ensures tip in depths && depths[tip] == 0
    ensures tip in txs && txs[tip].parents.first != tip ==>
              txs[tip].parents.first in depths && depths[txs[tip].parents.first] == 1
    ensures Score(txs, reps, tip) == DepthSum(txs, reps, depths)
  {
    depths := ScanMeasures(txs, reps, tip, tip, 0, map[], START);
  }

  lemma {:induction false} SumsWithin(low: map<TransactionId, real>, high: map<TransactionId, real>)
    requires low.Keys == high.Keys && forall id :: id in low ==> Within(low[id], high[id])
    ensures Within(RealSum(low), RealSum(high))
    decreases low.Keys
  {
    if low != map[] {
      var id :| id in low;
      RealSumRemove(low, id);
      RealSumRemove(high, id);
      SumsWithin(low - {id}, high - {id});
    }
  }

  lemma DepthSumBounds(txs: Transactions, reps: Reputations, tip: TransactionId, depths: map<TransactionId, nat>)
    requires NonNegative(txs, reps) && PathDepths(txs, tip, depths)
    ensures Within(Base(txs, reps, depths.Keys), DepthSum(txs, reps, depths))
  {
    var low := map id | id in depths.Keys :: Worth(txs, reps, id);
    var high := map id | id in depths :: AtDepth(Worth(txs, reps, id), depths[id]);
    forall id | id in low ensures Within(low[id], high[id]) {
      WorthNonNegative(txs, reps, id);
      FactorBounds(Worth(txs, reps, id), 1.0 + depths[id] as real / 2000.0);
    }
    SumsWithin(low, high);
  }

  lemma WorthNonNegative(txs: Transactions, reps: Reputations, id: TransactionId)
    requires NonNegative(txs, reps)
    ensures Worth(txs, reps, id) >= 0.0
  {
    if id in txs {
      ProductNonNegative(txs[id].weight, GetOr(reps, txs[id].sender, 0.5));
    }
  }

  lemma ProductNonNegative(x: real, y: real)
    requires x >= 0.0 && y >= 0.0
    ensures x * y >= 0.0
  {
  }

  /** Nothing visited is forgotten, and within the depth limit the node itself is visited. */
  lemma {:induction false} ScanGrows(txs: Transactions, reps: Reputations, id: TransactionId, depth: nat, s: Scan)
    ensures s.visited <= ScanFrom(txs, reps, id, depth, s).visited
    ensures depth <= MAX_DEPTH ==> id in ScanFrom(txs, reps, id, depth, s).visited
    decreases if depth > MAX_DEPTH then 0 else 1 + MAX_DEPTH - depth
  {
    if id !in s.visited && depth <= MAX_DEPTH && id in txs {
      var entered := Enter(txs, reps, id, depth, s);
      assert id in entered.visited;
      ScanGrows(txs, reps, txs[id].parents.first, depth + 1, entered);
      ScanGrows(txs, reps, txs[id].parents.second, depth + 1,
                ScanFrom(txs, reps, txs[id].parents.first, depth + 1, entered));
    }
  }

  /** Where the depth limit is out of reach, everything new is closed under stored parents. */
  lemma {:induction false} ScanIsClosed(txs: Transactions, reps: Reputations, id: TransactionId, depth: nat, s: Scan)
    requires Shallow(txs, id, depth)
    ensures var r := ScanFrom(txs, reps, id, depth, s); ParentsWithin(txs, r.visited - s.visited, r.visited)
    decreases if depth > MAX_DEPTH then 0 else 1 + MAX_DEPTH - depth
  {
    if id !in s.visited && depth <= MAX_DEPTH && id in txs {
      var p, q := txs[id].parents.first, txs[id].parents.second;
      var entered := Enter(txs, reps, id, depth, s);
      var left := ScanFrom(txs, reps, p, depth + 1, entered);
      ShallowParent(txs, id, depth, p);
      ShallowParent(txs, id, depth, q);
      ScanIsClosed(txs, reps, p, depth + 1, entered);
      ScanIsClosed(txs, reps, q, depth + 1, left);
      ScanGrows(txs, reps, p, depth + 1, entered);
      ScanGrows(txs, reps, q, depth + 1, left);
      ClosedTogether(txs, id, s.visited, left.visited, ScanFrom(txs, reps, q, depth + 1, left).visited);
    }
  }

  /** The score lies between B and 1.5 B, where B sums over the nodes that count: the tip and ancestors of it. */
  lemma ScoreBounds(txs: Transactions, reps: Reputations, tip: TransactionId)
    requires NonNegative(txs, reps)
    ensures Within(Base(txs, reps, Scanned(txs, reps, tip)), Score(txs, reps, tip))
    ensures tip in Scanned(txs, reps, tip)
    ensures forall v :: v in Scanned(txs, reps, tip) ==> Reaches(txs, tip, v)
  {
    var depths := ScoreIsADepthSum(txs, reps, tip);
    DepthSumBounds(txs, reps, tip, depths);
    forall v | v in Scanned(txs, reps, tip) ensures Reaches(txs, tip, v) {
      assert Above(txs, depths[v], tip, v);
    }
  }

  /** The stored ancestry of a tip, itself included. */
  ghost function Ancestry(txs: Transactions, tip: TransactionId): set<TransactionId> {
    set v | v in txs && Reaches(txs, tip, v)
  }

  /** With at most 1001 stored transactions the whole stored ancestry counts. */
  lemma SmallStoreCountsAll(txs: Transactions, reps: Reputations, tip: TransactionId)
    requires NonNegative(txs, reps) && Grown(txs) && |txs| <= MAX_DEPTH + 1 && tip in txs
    ensures Scanned(txs, reps, tip) * txs.Keys == Ancestry(txs, tip)
    ensures Within(Base(txs, reps, Ancestry(txs, tip)), Score(txs, reps, tip))
  {
    SmallStoreIsShallow(txs, tip);
    ScanIsClosed(txs, reps, tip, 0, START);
    ScoreBounds(txs, reps, tip);
    var scanned := Scanned(txs, reps, tip);
    assert scanned - {} == scanned;
    WholeAncestryVisited(txs, tip, scanned);
    BaseOfStored(txs, reps, scanned);
  }

  /** A set closed under stored parents holds every stored ancestor. */
  lemma {:induction false} ClosedUnderStored(txs: Transactions, s: set<TransactionId>, n: nat, from: TransactionId,
                                             to: TransactionId)
    requires from in s && to in txs && ParentsWithin(txs, s, s) && Above(txs, n, from, to)
    ensures to in s
  {
    if n > 0 {
      var p := if Above(txs, n - 1, txs[from].parents.first, to) then txs[from].parents.first else txs[from].parents.second;
      assert IsParent(txs, p, from) && p in txs;
      ClosedUnderStored(txs, s, n - 1, p, to);
    }
  }

  lemma WholeAncestryVisited(txs: Transactions, tip: TransactionId, visited: set<TransactionId>)
    requires tip in visited && ParentsWithin(txs, visited, visited)
    requires forall v :: v in visited ==> Reaches(txs, tip, v)
    ensures visited * txs.Keys == Ancestry(txs, tip)
  {
    forall v | v in Ancestry(txs, tip) ensures v in visited {
      var n: nat :| Above(txs, n, tip, v);
      ClosedUnderStored(txs, visited, n, tip, v);
    }
  }

  // ---- a chain that is too long ----

  /** On a ladder only the way down leads to the foot. */
  lemma {:induction false} WayDown(txs: Transactions, size: nat, n: nat, m: nat)
    requires OnLadder(txs, size) && 1 <= m <= size && Above(txs, n, Hash(m), Hash(1))
    ensures n == m - 1
  {
    if n > 0 {
      assert txs[Hash(m)] == Rung(m, m - 1, 0);
      assert Above(txs, n - 1, Hash(m - 1), Hash(1)) || Above(txs, n - 1, Hash(0), Hash(1));
      assert !Above(txs, n - 1, Hash(0), Hash(1));
      WayDown(txs, size, n - 1, m - 1);
    }
  }

  lemma {:induction false} ThereIsAWay(txs: Transactions, size: nat, m: nat)
    requires OnLadder(txs, size) && 1 <= m <= size
    ensures Above(txs, m - 1, Hash(m), Hash(1))
  {
    if m > 1 {
      ThereIsAWay(txs, size, m - 1);
      assert txs[Hash(m)] == Rung(m, m - 1, 0);
    }
  }

  lemma SizeAfterInsert(d: DagState, tx: Transaction)
    requires InsertError(d.transactions, tx).None?
    ensures |Insert(d, tx).transactions| == |d.transactions| + 1
  {
    SizeWithOneMore(d.transactions.Keys, tx.id);
    assert Insert(d, tx).transactions.Keys == d.transactions.Keys + {tx.id};
  }

  lemma LadderStep(n: nat)
    requires n >= 1
    ensures var d := InsertAll(EMPTY_DAG, Ladder(n - 1));
            InsertAll(EMPTY_DAG, Ladder(n)) == Insert(d, Rung(n, n - 1, 0))
            && InsertError(d.transactions, Rung(n, n - 1, 0)).None?
  {
    LadderStands(n - 1);
    assert Ladder(n)[..|Ladder(n)| - 1] == Ladder(n - 1);
    RungFits(InsertAll(EMPTY_DAG, Ladder(n - 1)).transactions, n);
  }

  lemma {:induction false} LadderSize(n: nat)
    ensures |InsertAll(EMPTY_DAG, Ladder(n)).transactions| == n
  {
    if n > 0 {
      LadderSize(n - 1);
      LadderStep(n);
      SizeAfterInsert(InsertAll(EMPTY_DAG, Ladder(n - 1)), Rung(n, n - 1, 0));
    }
  }

  lemma FootIsTooFar(txs: Transactions, n: nat, reps: Reputations)
    requires OnLadder(txs, n) && n == MAX_DEPTH + 2
    ensures Hash(1) in Ancestry(txs, Hash(n)) && Hash(1) !in Scanned(txs, reps, Hash(n))
  {
    ThereIsAWay(txs, n, n);
    if Hash(1) in Scanned(txs, reps, Hash(n)) {
      var depths := ScoreIsADepthSum(txs, reps, Hash(n));
      WayDown(txs, n, depths[Hash(1)], n);
    }
  }

  /** The foot of a ladder of 1002 is an ancestor of its top that does not count. */
  lemma LongLadderIsCut(n: nat, reps: Reputations)
    requires n == MAX_DEPTH + 2
    ensures var d := InsertAll(EMPTY_DAG, Ladder(n));
            && ValidDag(d) && |d.transactions| == n && Hash(n) in d.transactions
            && Hash(1) in Ancestry(d.transactions, Hash(n)) && Hash(1) !in Scanned(d.transactions, reps, Hash(n))
  {
    LadderStands(n);
    EveryDagIsValid(Ladder(n));
    LadderSize(n);
    FootIsTooFar(InsertAll(EMPTY_DAG, Ladder(n)).transactions, n, reps);
  }

  /** On every valid DAG of at most this size the whole stored ancestry of every tip counts. */
  ghost predicate AlwaysCountsAll(size: nat) {
    forall d: DagState, reps, tip :: ValidDag(d) && |d.transactions| <= size && tip in d.transactions
                                     && NonNegative(d.transactions, reps) ==>
      Scanned(d.transactions, reps, tip) * d.transactions.Keys == Ancestry(d.transactions, tip)
  }

  /** That is so exactly up to 1001 transactions. */
  lemma CountsAllExactly(size: nat)
    ensures AlwaysCountsAll(size) <==> size <= MAX_DEPTH + 1
  {
    if size <= MAX_DEPTH + 1 {
      forall d: DagState, reps, tip | ValidDag(d) && |d.transactions| <= size && tip in d.transactions
                                      && NonNegative(d.transactions, reps)
        ensures Scanned(d.transactions, reps, tip) * d.transactions.Keys == Ancestry(d.transactions, tip)
      {
        SmallStoreCountsAll(d.transactions, reps, tip);
      }
    } else {
      var n := MAX_DEPTH + 2;
      LongLadderIsCut(n, map[]);
      LadderIsWeightless(n);
      var d := InsertAll(EMPTY_DAG, Ladder(n));
      assert Hash(1) !in Scanned(d.transactions, map[], Hash(n)) * d.transactions.Keys;
    }
  }

  lemma LadderIsWeightless(n: nat)
    ensures NonNegative(InsertAll(EMPTY_DAG, Ladder(n)).transactions, map[])
  {
    LadderStands(n);
    var txs := InsertAll(EMPTY_DAG, Ladder(n)).transactions;
    forall id | id in txs ensures txs[id].weight >= 0.0 {
      assert txs[Hash(id.value)] == Rung(id.value, id.value - 1, 0);
    }
  }

  // ---- the methods ----

  /** The recursive helper. */
  method ScoreRecursive(dag: DAG, reps: Reputations, id: TransactionId, visited0: set<TransactionId>, depth: nat, total0: real)
    returns (visited: set<TransactionId>, total: real)
    ensures Scan(visited, total) == ScanFrom(dag.transactions, reps, id, depth, Scan(visited0, total0))
    decreases if depth > MAX_DEPTH then 0 else 1 + MAX_DEPTH - depth
  {
    if id in visited0 || depth > MAX_DEPTH {
      return visited0, total0;
    }
    visited, total := visited0 + {id}, total0;
    if id in dag.transactions {
      var tx := dag.transactions[id];
      var reputation := GetOr(reps, tx.sender, 0.5);
      total := total0 + tx.weight * reputation * DepthFactor(depth);
      assert Scan(visited, total) == Enter(dag.transactions, reps, id, depth, Scan(visited0, total0));
      visited, total := ScoreRecursive(dag, reps, tx.parents.first, visited, depth + 1, total);
      visited, total := ScoreRecursive(dag, reps, tx.parents.second, visited, depth + 1, total);
    } else {
      UnknownWeighsNothing(dag.transactions, reps, id, depth, Scan(visited0, total0));
    }
  }

  lemma UnknownWeighsNothing(txs: Transactions, reps: Reputations, id: TransactionId, depth: nat, s: Scan)
    requires id !in txs
    ensures Enter(txs, reps, id, depth, s) == Scan(s.visited + {id}, s.total)
  {
    assert 0.0 * DepthFactor(depth) == 0.0;
  }

  method ComputeSubgraphScore(dag: DAG, reps: Reputations, tip: TransactionId) returns (score: real)
    ensures score == Score(dag.transactions, reps, tip)
    ensures NonNegative(dag.transactions, reps) ==> Within(Base(dag.transactions, reps, Scanned(dag.transactions, reps, tip)), score)
  {
    var visited: set<TransactionId>;
    visited, score := ScoreRecursive(dag, reps, tip, {}, 0, 0.0);
    if NonNegative(dag.transactions, reps) {
      ScoreBounds(dag.transactions, reps, tip);
    }
  }

  /** Its score is positive, no score is larger, and no earlier one is as large. */
  ghost predicate Canonical(txs: Transactions, reps: Reputations, tips: seq<TransactionId>, i: nat) {
    && i < |tips| && Score(txs, reps, tips[i]) > 0.0
    && (forall j :: 0 <= j < |tips| ==> Score(txs, reps, tips[j]) <= Score(txs, reps, tips[i]))
    && (forall j :: 0 <= j < i ==> Score(txs, reps, tips[j]) < Score(txs, reps, tips[i]))
  }

  /** The first tip, among those examined, with the highest positive score. */
  method SelectCanonicalSubgraph(dag: DAG, reps: Reputations, tips: seq<TransactionId>) returns (best: Option<TransactionId>)
    ensures best.None? <==> forall i :: 0 <= i < |tips| ==> Score(dag.transactions, reps, tips[i]) <= 0.0
    ensures best.Some? ==> exists i: nat :: Canonical(dag.transactions, reps, tips, i) && best.value == tips[i]
  {
    ghost var txs := dag.transactions;
    best := None;
    var bestScore := 0.0;
    ghost var at := 0;
    for i := 0 to |tips|
      invariant bestScore >= 0.0
      invariant forall k :: 0 <= k < i ==> Score(txs, reps, tips[k]) <= bestScore
      invariant best.None? ==> bestScore == 0.0
      invariant best.Some? ==>
                  && 0 <= at < i && best.value == tips[at] && Score(txs, reps, tips[at]) == bestScore > 0.0
                  && forall k :: 0 <= k < at ==> Score(txs, reps, tips[k]) < bestScore
    {
      var score := ComputeSubgraphScore(dag, reps, tips[i]);
      if score > bestScore {
        bestScore := score;
        best := Some(tips[i]);
        at := i;
      }
    }
    assert best.Some? ==> Canonical(txs, reps, tips, at);
  }
}
