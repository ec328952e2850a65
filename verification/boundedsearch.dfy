/** When the depth-bounded ancestor search misses nothing (src/parent_selection.rs). */
module BoundedSearch {
  import opened Types
  import opened Bags
  import opened Paths
  import opened Dag

  /** Every ancestor within k links is found. */
  ghost predicate Complete(txs: Transactions, id: TransactionId, k: nat) {
    forall a :: AncestorWithin(txs, k, a, id) ==> a in AncestorsFound(txs, id, k)
  }

  // ---- two links are always searched completely ----

  function ParentsOf(txs: Transactions, x: TransactionId): set<TransactionId> {
    if x in txs then {txs[x].parents.first, txs[x].parents.second} else {}
  }

  /** The parents of x are known, or x waits in the queue one link up. */
  ghost predicate Handled(txs: Transactions, ancestors: set<TransactionId>, queue: seq<Visit>, x: TransactionId) {
    ParentsOf(txs, x) <= ancestors || Visit(x, 1) in queue
  }

  lemma {:induction false} SearchHandles(txs: Transactions, k: nat, ancestors: set<TransactionId>,
                                         queue: seq<Visit>, x: TransactionId)
    requires k >= 2 && Handled(txs, ancestors, queue, x)
    ensures ancestors <= Search(txs, k, ancestors, queue)
    ensures ParentsOf(txs, x) <= Search(txs, k, ancestors, queue)
    decreases |AllParents(txs) - ancestors|, |queue|
  {
    if queue != [] {
      var rest, e := queue[..|queue| - 1], queue[|queue| - 1];
      SplitLast(queue);
      ClimbProgresses(txs, k, ancestors, rest, e);
      var (a, q) := Climb(txs, k, ancestors, rest, e);
      assert forall v :: v in rest ==> v in q;
      SearchHandles(txs, k, a, q, x);
    }
  }

  /** The first step collects both parents, one link up. */
  lemma FirstStep(txs: Transactions, id: TransactionId, k: nat)
    requires k >= 1 && id in txs
    ensures var (a, q) := Climb(txs, k, {}, [], Visit(id, 0));
            && AncestorsFound(txs, id, k) == Search(txs, k, a, q)
            && a == ParentsOf(txs, id)
            && forall x :: x in ParentsOf(txs, id) ==> Visit(x, 1) in q
  {
    ClimbProgresses(txs, k, {}, [], Visit(id, 0));
    assert [Visit(id, 0)][..0] == [];
  }

  lemma {:induction false} SearchOnlyGrows(txs: Transactions, k: nat, ancestors: set<TransactionId>, queue: seq<Visit>)
    ensures ancestors <= Search(txs, k, ancestors, queue)
    decreases |AllParents(txs) - ancestors|, |queue|
  {
    if queue != [] {
      var rest, e := queue[..|queue| - 1], queue[|queue| - 1];
      ClimbProgresses(txs, k, ancestors, rest, e);
      var (a, q) := Climb(txs, k, ancestors, rest, e);
      SearchOnlyGrows(txs, k, a, q);
    }
  }

  lemma OneLink(txs: Transactions, x: TransactionId, a: TransactionId)
    requires Above(txs, 1, x, a)
    ensures a in ParentsOf(txs, x)
  {
    assert Above(txs, 0, txs[x].parents.first, a) || Above(txs, 0, txs[x].parents.second, a);
  }

  lemma TwoLinksAreComplete(txs: Transactions, id: TransactionId, k: nat)
    requires k <= 2
    ensures Complete(txs, id, k)
  {
    forall a | AncestorWithin(txs, k, a, id) ensures a in AncestorsFound(txs, id, k) {
      var n: nat :| 1 <= n <= k && Above(txs, n, id, a);
      FirstStep(txs, id, k);
      var (known, q) := Climb(txs, k, {}, [], Visit(id, 0));
      SearchOnlyGrows(txs, k, known, q);
      if n == 1 {
        OneLink(txs, id, a);
      } else {
        var x := if Above(txs, 1, txs[id].parents.first, a) then txs[id].parents.first else txs[id].parents.second;
        OneLink(txs, x, a);
        SearchHandles(txs, k, known, q, x);
      }
    }
  }

  // ---- from three links on a detour can hide an ancestor ----

  /** A transaction with these parents; the faucet may use any nonce. */
  function Rung(id: nat, first: nat, second: nat): Transaction {
    Transaction(Hash(id), Parents(Hash(first), Hash(second)), FAUCET_ADDRESS, FAUCET_ADDRESS, 0, 0, 0, 0, 0, 0.0, [], [])
  }

  /** 1 hangs off genesis, 2 off 1, and so on. */
  function Ladder(n: nat): seq<Transaction> {
    if n == 0 then [] else Ladder(n - 1) + [Rung(n, n - 1, 0)]
  }

  /** A shortcut to rung 2 beside the ladder, and a transaction on top of both. */
  function Detour(k: nat): seq<Transaction>
    requires k >= 3
  {
    Ladder(k + 1) + [Rung(k + 2, 0, 2), Rung(k + 3, k + 2, k + 1)]
  }

  ghost predicate OnLadder(txs: Transactions, n: nat) {
    && (forall id {:trigger id in txs} :: id in txs <==> 1 <= id.value <= n)
    && (forall id {:trigger txs[id]} :: id in txs ==> txs[id] == Rung(id.value, id.value - 1, 0))
  }

  /** The next rung passes every check. */
  lemma RungFits(txs: Transactions, n: nat)
    requires n >= 1 && OnLadder(txs, n - 1)
    ensures InsertError(txs, Rung(n, n - 1, 0)).None?
  {
    forall id | id in txs ensures txs[id].parents.first != Hash(n - 1) {
      assert txs[Hash(id.value)] == Rung(id.value, id.value - 1, 0);
    }
  }

  lemma LadderGrows(txs: Transactions, n: nat)
    requires n >= 1 && OnLadder(txs, n - 1)
    ensures OnLadder(txs[Hash(n) := Rung(n, n - 1, 0)], n)
  {
    var txs' := txs[Hash(n) := Rung(n, n - 1, 0)];
    forall id ensures id in txs' <==> 1 <= id.value <= n {
      assert id == Hash(id.value);
    }
    forall id | id in txs' ensures txs'[id] == Rung(id.value, id.value - 1, 0) {
      assert id != Hash(n) ==> txs[id] == Rung(id.value, id.value - 1, 0);
    }
  }

  lemma {:induction false} LadderStands(n: nat)
    ensures OnLadder(InsertAll(EMPTY_DAG, Ladder(n)).transactions, n)
    ensures forall i :: 0 <= i < |Ladder(n)| ==> Ladder(n)[i].id != GENESIS
  {
    if n > 0 {
      LadderStands(n - 1);
      assert Ladder(n)[..|Ladder(n)| - 1] == Ladder(n - 1);
      RungFits(InsertAll(EMPTY_DAG, Ladder(n - 1)).transactions, n);
      LadderGrows(InsertAll(EMPTY_DAG, Ladder(n - 1)).transactions, n);
    }
  }

  ghost predicate OnDetour(txs: Transactions, k: nat) {
    && (forall id {:trigger id in txs} :: id in txs <==> 1 <= id.value <= k + 3)
    && (forall id {:trigger txs[id]} :: id in txs && id.value <= k + 1 ==> txs[id] == Rung(id.value, id.value - 1, 0))
    && txs[Hash(k + 2)] == Rung(k + 2, 0, 2)
    && txs[Hash(k + 3)] == Rung(k + 3, k + 2, k + 1)
  }

  lemma ShortcutFits(txs: Transactions, k: nat)
    requires k >= 3 && OnLadder(txs, k + 1)
    ensures InsertError(txs, Rung(k + 2, 0, 2)).None?
  {
    forall id | id in txs ensures txs[id].parents.second == GENESIS {
      assert txs[Hash(id.value)] == Rung(id.value, id.value - 1, 0);
    }
  }

  lemma TopFits(txs: Transactions, k: nat)
    requires k >= 3 && OnLadder(txs, k + 1)
    ensures InsertError(txs[Hash(k + 2) := Rung(k + 2, 0, 2)], Rung(k + 3, k + 2, k + 1)).None?
  {
    forall id | id in txs ensures txs[id].parents.second == GENESIS {
      assert txs[Hash(id.value)] == Rung(id.value, id.value - 1, 0);
    }
  }

  lemma DetourGrows(txs: Transactions, k: nat)
    requires k >= 3 && OnLadder(txs, k + 1)
    ensures OnDetour(txs[Hash(k + 2) := Rung(k + 2, 0, 2)][Hash(k + 3) := Rung(k + 3, k + 2, k + 1)], k)
  {
    var txs' := txs[Hash(k + 2) := Rung(k + 2, 0, 2)][Hash(k + 3) := Rung(k + 3, k + 2, k + 1)];
    forall id ensures id in txs' <==> 1 <= id.value <= k + 3 {
      assert id == Hash(id.value);
    }
    forall id | id in txs' && id.value <= k + 1 ensures txs'[id] == Rung(id.value, id.value - 1, 0) {
      assert txs'[id] == txs[id];
    }
  }

  lemma DetourStands(k: nat)
    requires k >= 3
    ensures OnDetour(InsertAll(EMPTY_DAG, Detour(k)).transactions, k)
  {
    LadderStands(k + 1);
    InsertTwo(Ladder(k + 1), Rung(k + 2, 0, 2), Rung(k + 3, k + 2, k + 1));
    ShortcutFits(InsertAll(EMPTY_DAG, Ladder(k + 1)).transactions, k);
    TopFits(InsertAll(EMPTY_DAG, Ladder(k + 1)).transactions, k);
    DetourGrows(InsertAll(EMPTY_DAG, Ladder(k + 1)).transactions, k);
  }

  lemma DetourIsValid(k: nat)
    requires k >= 3
    ensures ValidDag(InsertAll(EMPTY_DAG, Detour(k)))
  {
    LadderStands(k + 1);
    EveryDagIsValid(Ladder(k + 1));
    InsertTwo(Ladder(k + 1), Rung(k + 2, 0, 2), Rung(k + 3, k + 2, k + 1));
    var d := InsertAll(EMPTY_DAG, Ladder(k + 1));
    InsertKeepsValid(d, Rung(k + 2, 0, 2));
    InsertKeepsValid(Insert(d, Rung(k + 2, 0, 2)), Rung(k + 3, k + 2, k + 1));
  }

  lemma InsertTwo(list: seq<Transaction>, a: Transaction, b: Transaction)
    ensures InsertAll(EMPTY_DAG, list + [a, b]) == Insert(Insert(InsertAll(EMPTY_DAG, list), a), b)
  {
    assert (list + [a, b])[..|list| + 1] == list + [a] && (list + [a])[..|list|] == list;
  }

  /** What may be queued: the shortcut, genesis, or a rung as deep as the ladder is long. */
  predicate Expected(k: nat, e: Visit) {
    || e == Visit(Hash(k + 2), 1)
    || e.node == GENESIS
    || (2 <= e.node.value <= k + 1 && e.depth == k + 2 - e.node.value)
  }

  /** The search is on its way down the ladder: rungs above m are handled, m waits above the shortcut. */
  ghost predicate Descending(k: nat, ancestors: set<TransactionId>, queue: seq<Visit>, m: nat) {
    && 2 <= m <= k + 1
    && (forall j :: 1 <= j <= k + 1 ==> (Hash(j) in ancestors <==> m <= j))
    && (forall e :: e in queue ==> Expected(k, e) && (1 <= e.node.value ==> m <= e.node.value))
    && (forall i :: 0 <= i < |queue| && queue[i].node == Hash(k + 2) ==> i == 0)
    && (m > 2 ==> exists i :: 1 <= i < |queue| && queue[i] == Visit(Hash(m), k + 2 - m))
  }

  lemma {:induction false} NeverReachesTheFoot(txs: Transactions, k: nat, ancestors: set<TransactionId>,
                                               queue: seq<Visit>, m: nat)
    requires k >= 3 && OnDetour(txs, k) && Descending(k, ancestors, queue, m)
    ensures Hash(1) !in Search(txs, k, ancestors, queue)
    decreases |AllParents(txs) - ancestors|, |queue|
  {
    if queue != [] {
      var rest, e := queue[..|queue| - 1], queue[|queue| - 1];
      SplitLast(queue);
      ClimbProgresses(txs, k, ancestors, rest, e);
      var (a, q) := Climb(txs, k, ancestors, rest, e);
      var m' := DescendOne(txs, k, ancestors, rest, e, m);
      NeverReachesTheFoot(txs, k, a, q, m');
    }
  }

  lemma DescendOne(txs: Transactions, k: nat, ancestors: set<TransactionId>, rest: seq<Visit>, e: Visit,
                   m: nat) returns (m': nat)
    requires k >= 3 && OnDetour(txs, k) && Descending(k, ancestors, rest + [e], m)
    ensures var (a, q) := Climb(txs, k, ancestors, rest, e); Descending(k, a, q, m')
  {
    if m > 2 && e == Visit(Hash(m), k + 2 - m) {
      StepDown(txs, k, ancestors, rest, m);
      m' := m - 1;
    } else {
      m' := m;
      PopKeeps(k, ancestors, rest, e, m);
      OnlyGenesisIsNew(txs, k, ancestors, rest, e, m);
      if GENESIS !in ancestors {
        AddGenesis(k, ancestors, rest, e.depth + 1, m);
      }
    }
  }

  lemma PopKeeps(k: nat, ancestors: set<TransactionId>, rest: seq<Visit>, e: Visit, m: nat)
    requires Descending(k, ancestors, rest + [e], m) && !(m > 2 && e == Visit(Hash(m), k + 2 - m))
    ensures Descending(k, ancestors, rest, m)
  {
    var queue := rest + [e];
    assert forall i :: 0 <= i < |rest| ==> queue[i] == rest[i];
    assert forall f :: f in rest ==> f in queue;
  }

  /** Any other entry adds genesis at most. */
  lemma OnlyGenesisIsNew(txs: Transactions, k: nat, ancestors: set<TransactionId>, rest: seq<Visit>, e: Visit, m: nat)
    requires k >= 3 && OnDetour(txs, k)
    requires Descending(k, ancestors, rest + [e], m) && !(m > 2 && e == Visit(Hash(m), k + 2 - m))
    ensures Climb(txs, k, ancestors, rest, e) == (ancestors, rest)
            || (GENESIS !in ancestors
                && Climb(txs, k, ancestors, rest, e) == (ancestors + {GENESIS}, rest + [Visit(GENESIS, e.depth + 1)]))
  {
    assert (rest + [e])[|rest|] == e && e in rest + [e];
    var j := e.node.value;
    if e == Visit(Hash(k + 2), 1) {
      assert m == 2 && Hash(2) in ancestors;
    } else if e.node != GENESIS && e.depth < k {
      assert txs[Hash(j)] == Rung(j, j - 1, 0);
      assert Hash(j - 1) in ancestors;
    }
  }

  /** The lowest rung met so far is expanded: the next one is queued. */
  lemma StepDown(txs: Transactions, k: nat, ancestors: set<TransactionId>, rest: seq<Visit>, m: nat)
    requires k >= 3 && OnDetour(txs, k) && 2 < m <= k + 1
    requires Descending(k, ancestors, rest + [Visit(Hash(m), k + 2 - m)], m)
    ensures var (a, q) := Climb(txs, k, ancestors, rest, Visit(Hash(m), k + 2 - m)); Descending(k, a, q, m - 1)
  {
    var e := Visit(Hash(m), k + 2 - m);
    assert txs[Hash(m)] == Rung(m, m - 1, 0) && Hash(m - 1) !in ancestors;
    LowerRung(k, ancestors, rest, m);
    var q := rest + [Visit(Hash(m - 1), k + 3 - m)];
    var a := ancestors + {Hash(m - 1)};
    if GENESIS !in a {
      AddGenesis(k, a, q, k + 3 - m, m - 1);
    }
  }

  lemma LowerRung(k: nat, ancestors: set<TransactionId>, rest: seq<Visit>, m: nat)
    requires 2 < m <= k + 1 && Descending(k, ancestors, rest + [Visit(Hash(m), k + 2 - m)], m)
    ensures Descending(k, ancestors + {Hash(m - 1)}, rest + [Visit(Hash(m - 1), k + 3 - m)], m - 1)
  {
    var queue := rest + [Visit(Hash(m), k + 2 - m)];
    var q := rest + [Visit(Hash(m - 1), k + 3 - m)];
    assert forall i :: 0 <= i < |rest| ==> queue[i] == rest[i] == q[i];
    assert forall f :: f in rest ==> f in queue;
    assert |rest| >= 1 && q[|rest|] == Visit(Hash(m - 1), k + 3 - m);
  }

  lemma AddGenesis(k: nat, a: set<TransactionId>, q: seq<Visit>, depth: nat, m: nat)
    requires Descending(k, a, q, m)
    ensures Descending(k, a + {GENESIS}, q + [Visit(GENESIS, depth)], m)
  {
    var longer := q + [Visit(GENESIS, depth)];
    assert forall i :: 0 <= i < |q| ==> longer[i] == q[i];
    assert forall f :: f in longer ==> f in q || f == Visit(GENESIS, depth);
  }

  lemma FootIsNear(txs: Transactions, k: nat)
    requires k >= 3 && OnDetour(txs, k)
    ensures AncestorWithin(txs, k, Hash(1), Hash(k + 3))
  {
    assert Above(txs, 0, Hash(1), Hash(1));
    assert Above(txs, 1, Hash(2), Hash(1));
    assert Above(txs, 2, Hash(k + 2), Hash(1));
    assert Above(txs, 3, Hash(k + 3), Hash(1));
  }

  lemma FootIsMissed(txs: Transactions, k: nat)
    requires k >= 3 && OnDetour(txs, k)
    ensures Hash(1) !in AncestorsFound(txs, Hash(k + 3), k)
  {
    var top := Hash(k + 3);
    FirstStep(txs, top, k);
    var (a, q) := Climb(txs, k, {}, [], Visit(top, 0));
    assert txs[top] == Rung(k + 3, k + 2, k + 1);
    CollectTwo(Hash(k + 2), Hash(k + 1));
    StartsDown(k, a, q);
    NeverReachesTheFoot(txs, k, a, q, k + 1);
  }

  lemma CollectTwo(p: TransactionId, r: TransactionId)
    requires p != r
    ensures var (a, q) := Collect({}, [], p, 1); Collect(a, q, r, 1) == ({p, r}, [Visit(p, 1), Visit(r, 1)])
  {
    var (a, q) := Collect({}, [], p, 1);
    assert a == {p} && q == [Visit(p, 1)];
    assert {p} + {r} == {p, r} && [Visit(p, 1)] + [Visit(r, 1)] == [Visit(p, 1), Visit(r, 1)];
  }

  lemma StartsDown(k: nat, a: set<TransactionId>, q: seq<Visit>)
    requires k >= 3 && a == {Hash(k + 2), Hash(k + 1)} && q == [Visit(Hash(k + 2), 1), Visit(Hash(k + 1), 1)]
    ensures Descending(k, a, q, k + 1)
  {
    assert q[1] == Visit(Hash(k + 1), 1);
  }

  /** Rung 1 is at most three links above the top, and is not found. */
  lemma DetourHidesTheFoot(k: nat)
    requires k >= 3
    ensures var d := InsertAll(EMPTY_DAG, Detour(k));
            ValidDag(d) && AncestorWithin(d.transactions, k, Hash(1), Hash(k + 3))
            && Hash(1) !in AncestorsFound(d.transactions, Hash(k + 3), k)
  {
    DetourStands(k);
    DetourIsValid(k);
    FootIsNear(InsertAll(EMPTY_DAG, Detour(k)).transactions, k);
    FootIsMissed(InsertAll(EMPTY_DAG, Detour(k)).transactions, k);
  }

  /** On every valid DAG the search misses nothing. */
  ghost predicate AlwaysComplete(k: nat) {
    forall d: DagState, id :: ValidDag(d) ==> Complete(d.transactions, id, k)
  }

  /** That is so exactly up to two links. */
  lemma CompleteExactlyUpToTwo(k: nat)
    ensures AlwaysComplete(k) <==> k <= 2
  {
    if k <= 2 {
      forall d: DagState, id | ValidDag(d) ensures Complete(d.transactions, id, k) {
        TwoLinksAreComplete(d.transactions, id, k);
      }
    } else {
      DetourHidesTheFoot(k);
      var d := InsertAll(EMPTY_DAG, Detour(k));
      assert !Complete(d.transactions, Hash(k + 3), k);
    }
  }

  /** And on a given DAG as soon as the bound reaches its size. */
  lemma CompleteFromStoreSize(txs: Transactions, id: TransactionId, k: nat)
    requires Grown(txs) && k >= |txs|
    ensures Complete(txs, id, k)
  {
    FoundAncestors(txs, id, k);
    forall a | AncestorWithin(txs, k, a, id) ensures StrictAncestor(txs, a, id) {
    }
  }
}
