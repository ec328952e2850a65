/** The DAG and its two incremental indexes (src/parent_selection.rs). */
module Dag {
  import opened Types
  import opened Bags
  import opened Paths

  datatype DagState = DagState(
    transactions: Transactions,
    children: map<TransactionId, seq<TransactionId>>,
    tips: set<TransactionId>)

  datatype DagError =
    | Duplicate(id: TransactionId)
    | ParentMissing(index: nat, parent: TransactionId)
    | ParentsUsed
    | SenderConflict

  const EMPTY_DAG := DagState(map[], map[], {})

  // ---- what an insertion checks ----

  predicate HasTransactionWithParents(txs: Transactions, parents: Parents) {
    parents != Parents(GENESIS, GENESIS) && exists id :: id in txs && txs[id].parents == parents
  }

  predicate HasTransactionWithNonce(txs: Transactions, sender: Address, nonce: u64) {
    exists id :: id in txs && txs[id].sender == sender && txs[id].accountNonce == nonce
  }

  predicate HasSenderConflict(txs: Transactions, sender: Address, nonce: u64) {
    sender != FAUCET_ADDRESS && HasTransactionWithNonce(txs, sender, nonce)
  }

  predicate ParentKnown(txs: Transactions, p: TransactionId) {
    p == GENESIS || p in txs
  }

  /** The first check that fails, in the order the code makes them. */
  function InsertError(txs: Transactions, tx: Transaction): Option<DagError> {
    if tx.id in txs then Some(Duplicate(tx.id))
    else if !ParentKnown(txs, tx.parents.first) then Some(ParentMissing(0, tx.parents.first))
    else if !ParentKnown(txs, tx.parents.second) then Some(ParentMissing(1, tx.parents.second))
    else if HasTransactionWithParents(txs, tx.parents) then Some(ParentsUsed)
    else if HasSenderConflict(txs, tx.sender, tx.accountNonce) then Some(SenderConflict)
    else None
  }

  // ---- what an insertion does ----

  function PushChild(children: map<TransactionId, seq<TransactionId>>, p: TransactionId, c: TransactionId):
    map<TransactionId, seq<TransactionId>>
  {
    children[p := GetOr(children, p, []) + [c]]
  }

  function DropTip(tips: set<TransactionId>, p: TransactionId): set<TransactionId> {
    if p == GENESIS then tips else tips - {p}
  }

  function Insert(d: DagState, tx: Transaction): DagState {
    if InsertError(d.transactions, tx).Some? then d
    else DagState(
      d.transactions[tx.id := tx],
      PushChild(PushChild(d.children, tx.parents.first, tx.id), tx.parents.second, tx.id),
      DropTip(DropTip(d.tips + {tx.id}, tx.parents.first), tx.parents.second))
  }

  function InsertAll(d: DagState, txs: seq<Transaction>): DagState {
    if txs == [] then d
    else Insert(InsertAll(d, txs[..|txs| - 1]), txs[|txs| - 1])
  }

  // ---- the invariant ----

  function ChildCount(children: map<TransactionId, seq<TransactionId>>, p: TransactionId, c: TransactionId): nat {
    multiset(GetOr(children, p, []))[c]
  }

  /** children[p] lists c exactly as often as p occurs among c's parents. */
  ghost predicate ChildrenExact(d: DagState) {
    && (forall p, c :: ChildCount(d.children, p, c) == ParentSlots(d.transactions, p, c))
    && (forall p :: p in d.children ==> d.children[p] != [])
  }

  function Childless(d: DagState): set<TransactionId> {
    d.transactions.Keys - d.children.Keys
  }

  ghost predicate UniqueParents(txs: Transactions) {
    forall a, b | a in txs && b in txs && txs[a].parents == txs[b].parents && txs[a].parents != Parents(GENESIS, GENESIS) ::
      a == b
  }

  ghost predicate UniqueNonces(txs: Transactions) {
    forall a, b | a in txs && b in txs && txs[a].sender == txs[b].sender
                  && txs[a].accountNonce == txs[b].accountNonce && txs[a].sender != FAUCET_ADDRESS ::
      a == b
  }

  ghost predicate ValidDag(d: DagState) {
    && Grown(d.transactions)
    && ChildrenExact(d)
    && d.tips == Childless(d)
    && UniqueParents(d.transactions)
    && UniqueNonces(d.transactions)
  }

  lemma EmptyDagIsValid()
    ensures ValidDag(EMPTY_DAG)
  {
    assert InsertionOrder(EMPTY_DAG.transactions, []);
    forall p, c ensures ChildCount(EMPTY_DAG.children, p, c) == 0 {
      assert GetOr(EMPTY_DAG.children, p, []) == [];
    }
  }

  lemma KnownIsEarlier(txs: Transactions, order: seq<Transaction>, p: TransactionId)
    requires InsertionOrder(txs, order) && ParentKnown(txs, p)
    ensures Earlier(order, |order|, p)
  {
  }

  lemma CoversAppend(txs: Transactions, order: seq<Transaction>, tx: Transaction)
    requires Covers(txs, order)
    ensures Covers(txs[tx.id := tx], order + [tx])
  {
    var txs', order' := txs[tx.id := tx], order + [tx];
    forall id | id in txs' ensures exists i :: 0 <= i < |order'| && order'[i].id == id {
      if id == tx.id {
        assert order'[|order|].id == id;
      } else {
        var i :| 0 <= i < |order| && order[i].id == id;
        assert order'[i].id == id;
      }
    }
  }

  lemma ListsAppend(txs: Transactions, order: seq<Transaction>, tx: Transaction)
    requires Lists(txs, order) && tx.id !in txs && tx.id != GENESIS
    ensures Lists(txs[tx.id := tx], order + [tx])
  {
  }

  lemma OrderAppend(txs: Transactions, order: seq<Transaction>, tx: Transaction)
    requires InsertionOrder(txs, order) && tx.id !in txs && tx.id != GENESIS
    requires ParentKnown(txs, tx.parents.first) && ParentKnown(txs, tx.parents.second)
    ensures InsertionOrder(txs[tx.id := tx], order + [tx])
  {
    KnownIsEarlier(txs, order, tx.parents.first);
    KnownIsEarlier(txs, order, tx.parents.second);
    TopologicalAppend(order, tx);
    ListsAppend(txs, order, tx);
    CoversAppend(txs, order, tx);
    SizeWithOneMore(txs.Keys, tx.id);
    assert txs[tx.id := tx].Keys == txs.Keys + {tx.id};
  }

  lemma InsertGrows(txs: Transactions, tx: Transaction)
    requires Grown(txs) && tx.id !in txs && tx.id != GENESIS
    requires ParentKnown(txs, tx.parents.first) && ParentKnown(txs, tx.parents.second)
    ensures Grown(txs[tx.id := tx])
  {
    var order: seq<Transaction> :| InsertionOrder(txs, order);
    OrderAppend(txs, order, tx);
  }

  lemma PushCount(children: map<TransactionId, seq<TransactionId>>, p: TransactionId, id: TransactionId,
                  q: TransactionId, c: TransactionId)
    ensures ChildCount(PushChild(children, p, id), q, c)
         == ChildCount(children, q, c) + if q == p && c == id then 1 else 0
  {
    if q == p {
      assert multiset(GetOr(children, p, []) + [id]) == multiset(GetOr(children, p, [])) + multiset{id};
    }
  }

  lemma InsertKeepsChildren(d: DagState, tx: Transaction)
    requires ChildrenExact(d) && InsertError(d.transactions, tx).None?
    ensures ChildrenExact(Insert(d, tx))
  {
    var d' := Insert(d, tx);
    forall p, c ensures ChildCount(d'.children, p, c) == ParentSlots(d'.transactions, p, c) {
      PushCount(d.children, tx.parents.first, tx.id, p, c);
      PushCount(PushChild(d.children, tx.parents.first, tx.id), tx.parents.second, tx.id, p, c);
      assert ChildCount(d.children, p, c) == ParentSlots(d.transactions, p, c);
    }
  }

  /** The keys of the children index are exactly the parents in use. */
  lemma ChildKeys(d: DagState, p: TransactionId)
    requires ChildrenExact(d)
    ensures p in d.children <==> exists c :: IsParent(d.transactions, p, c)
    ensures forall c :: c in GetOr(d.children, p, []) <==> IsParent(d.transactions, p, c)
  {
    forall c ensures c in GetOr(d.children, p, []) <==> IsParent(d.transactions, p, c) {
      assert ChildCount(d.children, p, c) == ParentSlots(d.transactions, p, c);
    }
    if p in d.children {
      assert d.children[p][0] in GetOr(d.children, p, []);
    }
  }

  /** Every parent of a stored transaction is stored, or is genesis. */
  lemma ParentsAreKnown(txs: Transactions)
    requires Grown(txs)
    ensures forall p, c :: IsParent(txs, p, c) ==> ParentKnown(txs, p)
  {
    var order: seq<Transaction> :| InsertionOrder(txs, order);
    forall p, c | IsParent(txs, p, c) ensures ParentKnown(txs, p) {
      var i :| 0 <= i < |order| && order[i].id == c;
      assert Earlier(order, i, order[i].parents.first) && Earlier(order, i, order[i].parents.second);
    }
  }

  lemma GenesisIsNotStored(txs: Transactions)
    requires Grown(txs)
    ensures GENESIS !in txs
  {
    var order: seq<Transaction> :| InsertionOrder(txs, order);
  }

  lemma FreshIdIsNoParent(d: DagState, id: TransactionId)
    requires Grown(d.transactions) && ChildrenExact(d) && id !in d.transactions && id != GENESIS
    ensures id !in d.children && GENESIS !in d.transactions
  {
    ParentsAreKnown(d.transactions);
    ChildKeys(d, id);
    GenesisIsNotStored(d.transactions);
  }

  lemma InsertKeepsTips(d: DagState, tx: Transaction)
    requires d.tips == Childless(d) && InsertError(d.transactions, tx).None?
    requires tx.id != GENESIS && tx.id !in d.children && GENESIS !in d.transactions
    ensures Insert(d, tx).tips == Childless(Insert(d, tx))
  {
    DroppedTips(d.transactions.Keys, d.children.Keys, tx.id, tx.parents.first, tx.parents.second);
    assert Insert(d, tx).children.Keys == d.children.Keys + {tx.parents.first, tx.parents.second};
  }

  lemma DroppedTips(keys: set<TransactionId>, kids: set<TransactionId>, x: TransactionId, p: TransactionId, q: TransactionId)
    requires GENESIS !in keys && x !in kids && x != p && x != q && x != GENESIS
    ensures DropTip(DropTip((keys - kids) + {x}, p), q) == (keys + {x}) - (kids + {p, q})
  {
  }

  lemma InsertKeepsValid(d: DagState, tx: Transaction)
    requires ValidDag(d) && tx.id != GENESIS
    ensures ValidDag(Insert(d, tx))
  {
    if InsertError(d.transactions, tx).None? {
      InsertGrows(d.transactions, tx);
      InsertKeepsChildren(d, tx);
      FreshIdIsNoParent(d, tx.id);
      InsertKeepsTips(d, tx);
      InsertKeepsUnique(d.transactions, tx);
    }
  }

  lemma InsertKeepsUnique(txs: Transactions, tx: Transaction)
    requires UniqueParents(txs) && UniqueNonces(txs) && InsertError(txs, tx).None?
    ensures UniqueParents(txs[tx.id := tx]) && UniqueNonces(txs[tx.id := tx])
  {
  }

  /** The DAG invariant over every sequence of insertions, refused ones included. */
  lemma {:induction false} EveryDagIsValid(txs: seq<Transaction>)
    requires forall i :: 0 <= i < |txs| ==> txs[i].id != GENESIS
    ensures ValidDag(InsertAll(EMPTY_DAG, txs))
    ensures Acyclic(InsertAll(EMPTY_DAG, txs).transactions)
  {
    if txs == [] {
      EmptyDagIsValid();
    } else {
      EveryDagIsValid(txs[..|txs| - 1]);
      InsertKeepsValid(InsertAll(EMPTY_DAG, txs[..|txs| - 1]), txs[|txs| - 1]);
    }
    GrownIsAcyclic(InsertAll(EMPTY_DAG, txs).transactions);
  }

  /** The stored transactions alone fix the edges, as multisets, and the tips. */
  lemma IndexesAreDetermined(d: DagState, e: DagState)
    requires ChildrenExact(d) && ChildrenExact(e)
    requires d.tips == Childless(d) && e.tips == Childless(e)
    requires d.transactions == e.transactions
    ensures d.tips == e.tips
    ensures d.children.Keys == e.children.Keys
    ensures forall p :: p in d.children ==> multiset(d.children[p]) == multiset(e.children[p])
  {
    forall p ensures p in d.children <==> p in e.children {
      ChildKeys(d, p);
      ChildKeys(e, p);
    }
    forall p | p in d.children ensures multiset(d.children[p]) == multiset(e.children[p]) {
      forall c ensures multiset(d.children[p])[c] == multiset(e.children[p])[c] {
        assert ChildCount(d.children, p, c) == ParentSlots(d.transactions, p, c);
        assert ChildCount(e.children, p, c) == ParentSlots(e.transactions, p, c);
      }
    }
  }

  // ---- searching up the parent links ----

  function ParentList(txs: Transactions, c: TransactionId): seq<TransactionId> {
    if c in txs then [txs[c].parents.first, txs[c].parents.second] else []
  }

  ghost predicate Within(queue: seq<TransactionId>, s: set<TransactionId>) {
    forall x :: x in queue ==> x in s
  }

  /** A finite set that holds `id` and the parents of every stored transaction. */
  lemma SearchSpace(txs: Transactions, id: TransactionId) returns (s: set<TransactionId>)
    ensures id in s && txs.Keys <= s
    ensures forall c :: c in txs ==> txs[c].parents.first in s && txs[c].parents.second in s
  {
    s := {id} + txs.Keys + (set c | c in txs :: txs[c].parents.first) + (set c | c in txs :: txs[c].parents.second);
  }

  /** Everything met is reachable, and what is visited is closed up to the queue. */
  ghost predicate Searching(txs: Transactions, from: TransactionId, visited: set<TransactionId>, queue: seq<TransactionId>) {
    && (forall x :: x in queue ==> Reaches(txs, from, x))
    && (from in visited || from in queue)
    && (forall v, p :: v in visited && IsParent(txs, p, v) ==> p in visited || p in queue)
  }

  lemma SearchStart(txs: Transactions, from: TransactionId)
    ensures Searching(txs, from, {}, [from])
  {
    assert Above(txs, 0, from, from);
  }

  lemma SearchSkip(txs: Transactions, from: TransactionId, visited: set<TransactionId>, queue: seq<TransactionId>)
    requires queue != [] && Searching(txs, from, visited, queue) && queue[|queue| - 1] in visited
    ensures Searching(txs, from, visited, queue[..|queue| - 1])
  {
    SplitLast(queue);
  }

  lemma SearchExpand(txs: Transactions, from: TransactionId, visited: set<TransactionId>, queue: seq<TransactionId>)
    requires queue != [] && Searching(txs, from, visited, queue)
    ensures var (rest, current) := (queue[..|queue| - 1], queue[|queue| - 1]);
            Reaches(txs, from, current) && Searching(txs, from, visited + {current}, rest + ParentList(txs, current))
  {
    var rest, current := queue[..|queue| - 1], queue[|queue| - 1];
    var next := ParentList(txs, current);
    SplitLast(queue);
    assert forall x :: x in rest + next <==> x in rest || x in next;
    if current in txs {
      ReachParents(txs, from, current);
      assert forall p :: IsParent(txs, p, current) ==> p in next;
    }
  }

  lemma SearchDone(txs: Transactions, from: TransactionId, visited: set<TransactionId>, to: TransactionId)
    requires Searching(txs, from, visited, []) && to !in visited
    ensures !Reaches(txs, from, to)
  {
    if Reaches(txs, from, to) {
      var n: nat :| Above(txs, n, from, to);
      ClosedUnderParents(txs, visited, n, from, to);
    }
  }

  // ---- climbing to a bounded depth ----

  datatype Visit = Visit(node: TransactionId, depth: nat)

  ghost predicate Queued(queue: seq<Visit>, x: TransactionId) {
    exists e :: e in queue && e.node == x
  }

  ghost predicate AncestorWithin(txs: Transactions, k: nat, a: TransactionId, id: TransactionId) {
    exists n: nat :: 1 <= n <= k && Above(txs, n, id, a)
  }

  /** Queue entries carry the length of a real path, results are real ancestors. */
  ghost predicate Climbing(txs: Transactions, id: TransactionId, k: nat, ancestors: set<TransactionId>, queue: seq<Visit>) {
    && (forall e :: e in queue ==> e.depth <= k && Above(txs, e.depth, id, e.node))
    && (forall a :: a in ancestors ==> AncestorWithin(txs, k, a, id))
  }

  /** Only nodes still queued may have parents not yet collected. */
  ghost predicate Unclimbed(txs: Transactions, id: TransactionId, ancestors: set<TransactionId>, queue: seq<Visit>) {
    forall x, p :: (x == id || x in ancestors) && IsParent(txs, p, x) ==>
      p in ancestors || Queued(queue, x)
  }

  lemma NotTooDeep(txs: Transactions, id: TransactionId, k: nat, x: TransactionId, depth: nat)
    requires Grown(txs) && k >= |txs| && Above(txs, depth, id, x)
    ensures x in txs ==> depth < k
  {
    if x in txs && depth > 0 {
      ChainShorterThanStore(txs, depth, id, x);
    }
  }

  ghost predicate UnclimbedBut(txs: Transactions, id: TransactionId, ancestors: set<TransactionId>,
                               queue: seq<Visit>, skip: TransactionId) {
    forall x, p :: x != skip && (x == id || x in ancestors) && IsParent(txs, p, x) ==>
      p in ancestors || Queued(queue, x)
  }

  lemma ClimbPop(txs: Transactions, id: TransactionId, k: nat, ancestors: set<TransactionId>, rest: seq<Visit>, e: Visit)
    requires Climbing(txs, id, k, ancestors, rest + [e])
    ensures Climbing(txs, id, k, ancestors, rest) && e.depth <= k && Above(txs, e.depth, id, e.node)
    ensures Unclimbed(txs, id, ancestors, rest + [e]) ==> UnclimbedBut(txs, id, ancestors, rest, e.node)
  {
    assert e in rest + [e];
    assert forall f :: f in rest + [e] <==> f in rest || f == e;
  }

  /** What looking at one parent adds: the results and the queue afterwards. */
  function Collect(ancestors: set<TransactionId>, queue: seq<Visit>, p: TransactionId, depth: nat):
    (set<TransactionId>, seq<Visit>)
  {
    if p in ancestors then (ancestors, queue) else (ancestors + {p}, queue + [Visit(p, depth)])
  }

  lemma CollectKeeps(txs: Transactions, id: TransactionId, k: nat, ancestors: set<TransactionId>,
                     queue: seq<Visit>, skip: TransactionId, p: TransactionId, depth: nat)
    requires Climbing(txs, id, k, ancestors, queue)
    requires 1 <= depth <= k && Above(txs, depth, id, p)
    ensures var (a, q) := Collect(ancestors, queue, p, depth);
            && Climbing(txs, id, k, a, q)
            && (UnclimbedBut(txs, id, ancestors, queue, skip) ==> UnclimbedBut(txs, id, a, q, skip))
  {
    assert forall f :: f in queue + [Visit(p, depth)] <==> f in queue || f == Visit(p, depth);
  }

  /** Handling one queue entry. */
  function Climb(txs: Transactions, k: nat, ancestors: set<TransactionId>, queue: seq<Visit>, e: Visit):
    (set<TransactionId>, seq<Visit>)
  {
    if e.depth >= k || e.node !in txs then (ancestors, queue)
    else
      var (a, q) := Collect(ancestors, queue, txs[e.node].parents.first, e.depth + 1);
      Collect(a, q, txs[e.node].parents.second, e.depth + 1)
  }

  /** Everything that some stored transaction names as a parent. */
  function AllParents(txs: Transactions): set<TransactionId> {
    (set c | c in txs :: txs[c].parents.first) + (set c | c in txs :: txs[c].parents.second)
  }

  /** Each entry shortens the queue or finds something new. */
  lemma ClimbProgresses(txs: Transactions, k: nat, ancestors: set<TransactionId>, queue: seq<Visit>, e: Visit)
    ensures var (a, q) := Climb(txs, k, ancestors, queue, e);
            (a, q) == (ancestors, queue) || |AllParents(txs) - a| < |AllParents(txs) - ancestors|
  {
    var (a, q) := Climb(txs, k, ancestors, queue, e);
    if a != ancestors {
      var p := if txs[e.node].parents.first in ancestors then txs[e.node].parents.second else txs[e.node].parents.first;
      assert p in AllParents(txs) && p !in ancestors && p in a;
      SubsetSize(AllParents(txs) - a, AllParents(txs) - ancestors);
    }
  }

  /** The whole loop: the last entry queued is handled first. */
  function Search(txs: Transactions, k: nat, ancestors: set<TransactionId>, queue: seq<Visit>): set<TransactionId>
    decreases |AllParents(txs) - ancestors|, |queue|
  {
    if queue == [] then ancestors
    else
      var rest, e := queue[..|queue| - 1], queue[|queue| - 1];
      var (a, q) := Climb(txs, k, ancestors, rest, e);
      ClimbProgresses(txs, k, ancestors, rest, e);
      Search(txs, k, a, q)
  }

  function AncestorsFound(txs: Transactions, id: TransactionId, k: nat): set<TransactionId> {
    Search(txs, k, {}, [Visit(id, 0)])
  }

  ghost predicate ClimbInvariant(txs: Transactions, id: TransactionId, k: nat, ancestors: set<TransactionId>,
                                 queue: seq<Visit>) {
    && Climbing(txs, id, k, ancestors, queue)
    && (Grown(txs) && k >= |txs| ==> Unclimbed(txs, id, ancestors, queue))
  }

  lemma ClimbKeeps(txs: Transactions, id: TransactionId, k: nat, ancestors: set<TransactionId>, rest: seq<Visit>, e: Visit)
    requires ClimbInvariant(txs, id, k, ancestors, rest + [e])
    ensures var (a, q) := Climb(txs, k, ancestors, rest, e); ClimbInvariant(txs, id, k, a, q)
  {
    ClimbPop(txs, id, k, ancestors, rest, e);
    if e.depth < k && e.node in txs {
      ClimbExpand(txs, id, k, ancestors, rest, e);
    } else if Grown(txs) && k >= |txs| {
      NotTooDeep(txs, id, k, e.node, e.depth);
    }
  }

  lemma ClimbExpand(txs: Transactions, id: TransactionId, k: nat, ancestors: set<TransactionId>, rest: seq<Visit>, e: Visit)
    requires Climbing(txs, id, k, ancestors, rest)
    requires e.depth < k && e.node in txs && Above(txs, e.depth, id, e.node)
    ensures var (a, q) := Climb(txs, k, ancestors, rest, e);
            && Climbing(txs, id, k, a, q)
            && (UnclimbedBut(txs, id, ancestors, rest, e.node) ==> Unclimbed(txs, id, a, q))
  {
    ClimbLinks(txs, id, e.node, e.depth);
    var (a, q) := Collect(ancestors, rest, txs[e.node].parents.first, e.depth + 1);
    CollectKeeps(txs, id, k, ancestors, rest, e.node, txs[e.node].parents.first, e.depth + 1);
    CollectKeeps(txs, id, k, a, q, e.node, txs[e.node].parents.second, e.depth + 1);
  }

  lemma ClimbLinks(txs: Transactions, id: TransactionId, x: TransactionId, depth: nat)
    requires Above(txs, depth, id, x) && x in txs
    ensures Above(txs, depth + 1, id, txs[x].parents.first) && Above(txs, depth + 1, id, txs[x].parents.second)
  {
    AboveExtend(txs, depth, id, x, txs[x].parents.first);
    AboveExtend(txs, depth, id, x, txs[x].parents.second);
  }

  lemma ClimbStart(txs: Transactions, id: TransactionId, k: nat)
    ensures ClimbInvariant(txs, id, k, {}, [Visit(id, 0)])
  {
    assert Visit(id, 0) in [Visit(id, 0)];
  }

  lemma {:induction false} SearchKeeps(txs: Transactions, id: TransactionId, k: nat, ancestors: set<TransactionId>,
                                       queue: seq<Visit>)
    requires ClimbInvariant(txs, id, k, ancestors, queue)
    ensures ClimbInvariant(txs, id, k, Search(txs, k, ancestors, queue), [])
    decreases |AllParents(txs) - ancestors|, |queue|
  {
    if queue != [] {
      var rest, e := queue[..|queue| - 1], queue[|queue| - 1];
      SplitLast(queue);
      ClimbKeeps(txs, id, k, ancestors, rest, e);
      ClimbProgresses(txs, k, ancestors, rest, e);
      var (a, q) := Climb(txs, k, ancestors, rest, e);
      SearchKeeps(txs, id, k, a, q);
    }
  }

  /** Everything found is an ancestor within k links; with k at least the store size nothing is missed. */
  lemma FoundAncestors(txs: Transactions, id: TransactionId, k: nat)
    ensures forall a :: a in AncestorsFound(txs, id, k) ==> AncestorWithin(txs, k, a, id)
    ensures Grown(txs) && k >= |txs| ==> forall a :: a in AncestorsFound(txs, id, k) <==> StrictAncestor(txs, a, id)
  {
    ClimbStart(txs, id, k);
    SearchKeeps(txs, id, k, {}, [Visit(id, 0)]);
    ClimbDone(txs, id, k, AncestorsFound(txs, id, k));
  }

  lemma ClimbDone(txs: Transactions, id: TransactionId, k: nat, ancestors: set<TransactionId>)
    requires ClimbInvariant(txs, id, k, ancestors, [])
    ensures forall a :: a in ancestors ==> AncestorWithin(txs, k, a, id)
    ensures Grown(txs) && k >= |txs| ==> forall a :: a in ancestors <==> StrictAncestor(txs, a, id)
  {
    if Grown(txs) && k >= |txs| {
      GrownIsAcyclic(txs);
      forall a | StrictAncestor(txs, a, id) ensures a in ancestors {
        var n: nat :| n >= 1 && Above(txs, n, id, a);
        ClosedUnderParents(txs, ancestors + {id}, n, id, a);
      }
    }
  }

  class DAG {
    var transactions: Transactions
    var children: map<TransactionId, seq<TransactionId>>
    var tips: set<TransactionId>

    ghost function State(): DagState
      reads this
    {
      DagState(transactions, children, tips)
    }

    ghost predicate Valid()
      reads this
    {
      ValidDag(State())
    }

    constructor ()
      ensures State() == EMPTY_DAG && Valid()
    {
      transactions, children, tips := map[], map[], {};
      new;
      EmptyDagIsValid();
    }

    method AddTransactionValidated(tx: Transaction) returns (r: Result<Unit, DagError>)
      modifies this
      ensures State() == Insert(old(State()), tx)
      ensures r == (match InsertError(old(transactions), tx) case Some(e) => Err(e) case None => Ok(Unit))
      ensures old(Valid()) && tx.id != GENESIS ==> Valid()
    {
      ghost var before := State();
      var failure := CheckInsertion(tx);
      if failure.Some? {
        return Err(failure.value);
      }
      transactions := transactions[tx.id := tx];
      LinkChild(tx.parents.first, tx.id);
      LinkChild(tx.parents.second, tx.id);
      tips := tips + {tx.id};
      if tx.parents.first != GENESIS {
        tips := tips - {tx.parents.first};
      }
      if tx.parents.second != GENESIS {
        tips := tips - {tx.parents.second};
      }
      if ValidDag(before) && tx.id != GENESIS {
        InsertKeepsValid(before, tx);
      }
      return Ok(Unit);
    }

    method CheckInsertion(tx: Transaction) returns (failure: Option<DagError>)
      ensures failure == InsertError(transactions, tx)
    {
      if tx.id in transactions {
        return Some(Duplicate(tx.id));
      }
      if tx.parents.first != GENESIS && tx.parents.first !in transactions {
        return Some(ParentMissing(0, tx.parents.first));
      }
      if tx.parents.second != GENESIS && tx.parents.second !in transactions {
        return Some(ParentMissing(1, tx.parents.second));
      }
      if HasTransactionWithParents(transactions, tx.parents) {
        return Some(ParentsUsed);
      }
      if HasSenderConflict(transactions, tx.sender, tx.accountNonce) {
        return Some(SenderConflict);
      }
      return None;
    }

    method LinkChild(parent: TransactionId, id: TransactionId)
      modifies this`children
      ensures children == if ParentKnown(transactions, parent) then PushChild(old(children), parent, id) else old(children)
    {
      if parent == GENESIS || parent in transactions {
        if parent !in children {
          children := children[parent := []];
        }
        children := children[parent := children[parent] + [id]];
      }
    }

    /** Recomputing the tips from scratch; on a valid DAG it changes nothing. */
    method RebuildTips()
      modifies this`tips
      ensures tips == Childless(State())
      ensures old(Valid()) ==> tips == old(tips)
    {
      tips := {};
      var keys := transactions.Keys;
      while keys != {}
        invariant keys <= transactions.Keys
        invariant tips == set id | id in transactions.Keys - keys && id !in children
        decreases |keys|
      {
        var id :| id in keys;
        if id !in children {
          tips := tips + {id};
        }
        keys := keys - {id};
      }
    }

    /** Depth-first search up the parent links, exact on any store, cyclic or not. */
    method IsReachableFrom(from: TransactionId, to: TransactionId) returns (found: bool)
      ensures found <==> Reaches(transactions, from, to)
    {
      var visited: set<TransactionId> := {};
      var queue := [from];
      ghost var universe := SearchSpace(transactions, from);
      SearchStart(transactions, from);
      while queue != []
        invariant Searching(transactions, from, visited, queue)
        invariant Within(queue, universe) && visited <= universe && to !in visited
        decreases |universe - visited|, |queue|
      {
        var current := queue[|queue| - 1];
        var rest := queue[..|queue| - 1];
        if current == to {
          return true;
        }
        if current in visited {
          SearchSkip(transactions, from, visited, queue);
          queue := rest;
        } else {
          SearchExpand(transactions, from, visited, queue);
          queue := rest;
          SubsetSize(universe - (visited + {current}), universe - visited);
          visited := visited + {current};
          if current in transactions {
            queue := queue + [transactions[current].parents.first];
            queue := queue + [transactions[current].parents.second];
          }
          assert queue == rest + ParentList(transactions, current);
        }
      }
      SearchDone(transactions, from, visited, to);
      return false;
    }

    /** Ancestors within `maxDepth` links. A node first met at the end of a long
      * detour is not expanded again, so a bound above two may miss some; a bound of at
      * least the number of stored transactions misses none. */
    method GetAncestors(id: TransactionId, maxDepth: nat) returns (ancestors: set<TransactionId>)
      ensures ancestors == AncestorsFound(transactions, id, maxDepth)
      ensures forall a :: a in ancestors ==> AncestorWithin(transactions, maxDepth, a, id)
      ensures Valid() && maxDepth >= |transactions| ==>
                forall a :: a in ancestors <==> StrictAncestor(transactions, a, id)
    {
      ancestors := {};
      var queue: seq<Visit> := [Visit(id, 0)];
      while queue != []
        invariant Search(transactions, maxDepth, ancestors, queue) == AncestorsFound(transactions, id, maxDepth)
        decreases |AllParents(transactions) - ancestors|, |queue|
      {
        var e := queue[|queue| - 1];
        var rest := queue[..|queue| - 1];
        ClimbProgresses(transactions, maxDepth, ancestors, rest, e);
        ghost var next := Climb(transactions, maxDepth, ancestors, rest, e);
        queue := rest;
        if e.depth < maxDepth && e.node in transactions {
          var tx := transactions[e.node];
          if tx.parents.first !in ancestors {
            ancestors := ancestors + {tx.parents.first};
            queue := queue + [Visit(tx.parents.first, e.depth + 1)];
          }
          if tx.parents.second !in ancestors {
            ancestors := ancestors + {tx.parents.second};
            queue := queue + [Visit(tx.parents.second, e.depth + 1)];
          }
        }
        assert (ancestors, queue) == next;
      }
      FoundAncestors(transactions, id, maxDepth);
    }
  }

  lemma ReachParents(txs: Transactions, from: TransactionId, c: TransactionId)
    requires Reaches(txs, from, c) && c in txs
    ensures Reaches(txs, from, txs[c].parents.first) && Reaches(txs, from, txs[c].parents.second)
  {
    var n: nat :| Above(txs, n, from, c);
    AboveExtend(txs, n, from, c, txs[c].parents.first);
    AboveExtend(txs, n, from, c, txs[c].parents.second);
  }

  lemma {:induction false} SubsetSize<T>(a: set<T>, b: set<T>)
    requires a < b
    ensures |a| < |b|
    decreases a
  {
    var x :| x in b && x !in a;
    SubsetSizeLe(a, b - {x});
  }

  lemma {:induction false} SubsetSizeLe<T>(a: set<T>, b: set<T>)
    requires a <= b
    ensures |a| <= |b|
    decreases a
  {
    if a != {} {
      var x :| x in a;
      SubsetSizeLe(a - {x}, b - {x});
    }
  }
}
