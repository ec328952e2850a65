/** Tip selection by a weighted random walk (src/parent_selection.rs). */
module ParentSelection {
  import opened Types
  import opened Bags
  import opened Paths
  import opened Dag
  import opened Descendants

  datatype Weighted = Weighted(id: TransactionId, weight: nat)

  /** The weights of the first j entries. */
  function PrefixWeight(cs: seq<Weighted>, j: nat): nat
    requires j <= |cs|
  {
    if j == 0 then 0 else PrefixWeight(cs, j - 1) + cs[j - 1].weight
  }

  function TotalWeight(cs: seq<Weighted>): nat {
    PrefixWeight(cs, |cs|)
  }

  /** Entry j owns the draws between its prefix weight and the next. */
  predicate Owns(cs: seq<Weighted>, j: nat, draw: nat) {
    j < |cs| && PrefixWeight(cs, j) <= draw < PrefixWeight(cs, j + 1)
  }

  predicate SortedByWeight(cs: seq<Weighted>) {
    forall i, j :: 0 <= i < j < |cs| ==> cs[i].weight >= cs[j].weight
  }

  lemma {:induction false} PrefixGrows(cs: seq<Weighted>, i: nat, j: nat)
    requires i <= j <= |cs|
    ensures PrefixWeight(cs, i) <= PrefixWeight(cs, j)
  {
    if i < j {
      PrefixGrows(cs, i, j - 1);
    }
  }

  lemma OwnerIsUnique(cs: seq<Weighted>, i: nat, j: nat, draw: nat)
    requires Owns(cs, i, draw) && Owns(cs, j, draw)
    ensures i == j
  {
    if i < j {
      PrefixGrows(cs, i + 1, j);
    } else if j < i {
      PrefixGrows(cs, j + 1, i);
    }
  }

  function Interval(lo: nat, hi: nat): (s: set<nat>)
    requires lo <= hi
    ensures forall r :: r in s <==> lo <= r < hi
    ensures |s| == hi - lo
  {
    if lo == hi then {} else Interval(lo, hi - 1) + {hi - 1}
  }

  /** Entry j is chosen by exactly weight-many of the possible draws. */
  lemma ChosenInProportion(cs: seq<Weighted>, j: nat)
    requires j < |cs|
    ensures |set r | 0 <= r < TotalWeight(cs) && Owns(cs, j, r)| == cs[j].weight
  {
    PrefixGrows(cs, j + 1, |cs|);
    assert (set r | 0 <= r < TotalWeight(cs) && Owns(cs, j, r)) == Interval(PrefixWeight(cs, j), PrefixWeight(cs, j + 1));
  }

  /** The selection loop: no draw below the total falls through or underflows. */
  method ChooseWeighted(cs: seq<Weighted>, draw: nat) returns (j: nat)
    requires draw < TotalWeight(cs)
    ensures Owns(cs, j, draw)
  {
    var rest := draw;
    j := 0;
    while j < |cs|
      invariant j <= |cs| && 0 <= rest && rest + PrefixWeight(cs, j) == draw
    {
      if rest < cs[j].weight {
        return;
      }
      rest := rest - cs[j].weight;
      j := j + 1;
    }
  }

  /** The entries of one weight, in their order. */
  function OfWeight(cs: seq<Weighted>, w: nat): seq<Weighted> {
    if cs == [] then []
    else OfWeight(cs[..|cs| - 1], w) + if cs[|cs| - 1].weight == w then [cs[|cs| - 1]] else []
  }

  lemma {:induction false} OfWeightConcat(xs: seq<Weighted>, ys: seq<Weighted>, w: nat)
    ensures OfWeight(xs + ys, w) == OfWeight(xs, w) + OfWeight(ys, w)
  {
    if ys == [] {
      assert xs + ys == xs;
    } else {
      assert (xs + ys)[..|xs + ys| - 1] == xs + ys[..|ys| - 1];
      OfWeightConcat(xs, ys[..|ys| - 1], w);
    }
  }

  lemma {:induction false} NoneOfWeight(cs: seq<Weighted>, w: nat)
    requires forall i :: 0 <= i < |cs| ==> cs[i].weight != w
    ensures OfWeight(cs, w) == []
  {
    if cs != [] {
      NoneOfWeight(cs[..|cs| - 1], w);
    }
  }

  /** Descending by weight, equal weights in their old order. */
  ghost predicate StableSort(sorted: seq<Weighted>, cs: seq<Weighted>) {
    && multiset(sorted) == multiset(cs) && SortedByWeight(sorted)
    && forall w :: OfWeight(sorted, w) == OfWeight(cs, w)
  }

  method SortByWeight(cs: seq<Weighted>) returns (sorted: seq<Weighted>)
    ensures StableSort(sorted, cs)
  {
    sorted := [];
    for i := 0 to |cs|
      invariant StableSort(sorted, cs[..i])
    {
      assert cs[..i + 1] == cs[..i] + [cs[i]];
      ghost var before := sorted;
      sorted := InsertByWeight(sorted, cs[i]);
      assert cs[..i + 1][..i] == cs[..i];
    }
    assert cs[..|cs|] == cs;
  }

  method InsertByWeight(cs: seq<Weighted>, c: Weighted) returns (sorted: seq<Weighted>)
    requires SortedByWeight(cs)
    ensures multiset(sorted) == multiset(cs) + multiset{c} && SortedByWeight(sorted)
    ensures forall w :: OfWeight(sorted, w) == OfWeight(cs, w) + if c.weight == w then [c] else []
  {
    var k := 0;
    while k < |cs| && cs[k].weight >= c.weight
      invariant k <= |cs| && forall l :: 0 <= l < k ==> cs[l].weight >= c.weight
    {
      k := k + 1;
    }
    sorted := cs[..k] + ([c] + cs[k..]);
    assert cs == cs[..k] + cs[k..];
    BagWithout(cs[..k], c, cs[k..]);
    InsertionStaysSorted(cs, k, c);
    forall w ensures OfWeight(sorted, w) == OfWeight(cs, w) + if c.weight == w then [c] else [] {
      InsertionIsStable(cs, k, c, w);
    }
  }

  lemma InsertionIsStable(cs: seq<Weighted>, k: nat, c: Weighted, w: nat)
    requires SortedByWeight(cs) && k <= |cs|
    requires k < |cs| ==> cs[k].weight < c.weight
    ensures OfWeight(cs[..k] + ([c] + cs[k..]), w) == OfWeight(cs, w) + if c.weight == w then [c] else []
  {
    assert cs == cs[..k] + cs[k..];
    OfWeightConcat(cs[..k], [c] + cs[k..], w);
    OfWeightConcat([c], cs[k..], w);
    OfWeightConcat(cs[..k], cs[k..], w);
    assert [c][..0] == [];
    if c.weight == w {
      NoneOfWeight(cs[k..], w);
    }
  }

  lemma InsertionStaysSorted(cs: seq<Weighted>, k: nat, c: Weighted)
    requires SortedByWeight(cs) && k <= |cs|
    requires forall l :: 0 <= l < k ==> cs[l].weight >= c.weight
    requires k < |cs| ==> cs[k].weight < c.weight
    ensures SortedByWeight(cs[..k] + ([c] + cs[k..]))
  {
    var sorted := cs[..k] + ([c] + cs[k..]);
    assert forall i :: 0 <= i < |sorted| ==> sorted[i] == if i < k then cs[i] else if i == k then c else cs[i - 1];
  }

  lemma {:induction false} PositiveTotal(cs: seq<Weighted>)
    requires cs != [] && forall c :: c in cs ==> c.weight >= 1
    ensures TotalWeight(cs) >= 1
  {
    assert cs[|cs| - 1] in cs;
  }

  lemma EntriesAreChildren(children: seq<TransactionId>, cache: map<TransactionId, nat>, sorted: seq<Weighted>, d: DagState)
    requires children != [] && SafeCache(cache, d) && forall c :: c in children ==> c in cache
    requires StableSort(sorted, Weighed(children, cache))
    ensures sorted != [] && forall e :: e in sorted ==> e.id in children && e.weight >= 1
  {
    var weighted := Weighed(children, cache);
    SameMembers(sorted, weighted);
    assert weighted[0] in weighted;
  }

  /** The sum that the random number is reduced to. */
  method PrefixSum(cs: seq<Weighted>) returns (total: nat)
    ensures total == TotalWeight(cs)
  {
    total := 0;
    for i := 0 to |cs|
      invariant total == PrefixWeight(cs, i)
    {
      total := total + cs[i].weight;
    }
  }

  /** A non-empty store has a transaction hanging directly off genesis. */
  lemma GenesisHasAChild(d: DagState)
    requires ValidDag(d) && d.transactions != map[]
    ensures ChildList(d, GENESIS) != []
  {
    var order: seq<Transaction> :| InsertionOrder(d.transactions, order);
    var id :| id in d.transactions;
    assert |order| > 0;
    assert Earlier(order, 0, order[0].parents.first);
    ChildKeys(d, GENESIS);
    assert IsParent(d.transactions, GENESIS, order[0].id);
  }

  /** A step to a child makes the path from the root one longer. */
  lemma OneStepDown(d: DagState, at: TransactionId, next: TransactionId, steps: nat, root: TransactionId)
    requires ChildrenExact(d) && next in ChildList(d, at)
    requires if steps == 0 then root == next else Above(d.transactions, steps - 1, at, root)
    ensures Above(d.transactions, steps, next, root)
  {
    ChildKeys(d, at);
  }

  /** Nothing stored names a childless first parent. */
  lemma ChildlessIsUnused(d: DagState, first: TransactionId, second: TransactionId)
    requires ChildrenExact(d) && ChildList(d, first) == []
    ensures !HasTransactionWithParents(d.transactions, Parents(first, second))
  {
    ChildKeys(d, first);
    forall id | id in d.transactions ensures d.transactions[id].parents != Parents(first, second) {
      assert !IsParent(d.transactions, first, id);
    }
  }

  datatype SelectionError = NoValidTips

  /** No cached weight is zero or more than a fresh count: what is left of agreement when the DAG has grown. */
  ghost predicate SafeCache(cache: map<TransactionId, nat>, d: DagState) {
    forall id :: id in cache ==> 1 <= cache[id] <= Weight(d, id)
  }

  /** A safe cache stays safe whatever is inserted. */
  lemma StaleCacheIsSafe(cache: map<TransactionId, nat>, d: DagState, tx: Transaction)
    requires SafeCache(cache, d)
    ensures SafeCache(cache, Insert(d, tx))
  {
    forall id | id in cache ensures cache[id] <= Weight(Insert(d, tx), id) {
      CountsNeverFall(d, tx, id);
    }
  }

  /** Each child with the weight the cache gives it. */
  function Weighed(children: seq<TransactionId>, cache: map<TransactionId, nat>): (weighted: seq<Weighted>)
    requires forall c :: c in children ==> c in cache
    ensures |weighted| == |children|
    ensures forall k :: 0 <= k < |children| ==> weighted[k] == Weighted(children[k], cache[children[k]])
  {
    if children == [] then []
    else
      var last := children[|children| - 1];
      assert forall c :: c in children[..|children| - 1] ==> c in children;
      assert last in children;
      Weighed(children[..|children| - 1], cache) + [Weighted(last, cache[last])]
  }

  /** Cached weights stay as they are, new ones are fresh counts. */
  ghost predicate Counted(before: map<TransactionId, nat>, after: map<TransactionId, nat>, d: DagState) {
    && before.Keys <= after.Keys
    && forall id :: id in after ==> after[id] == GetOr(before, id, Weight(d, id))
  }

  lemma CountedIsSafe(before: map<TransactionId, nat>, after: map<TransactionId, nat>, d: DagState)
    requires Counted(before, after, d) && SafeCache(before, d)
    ensures SafeCache(after, d)
  {
  }

  lemma CountedThen(a: map<TransactionId, nat>, b: map<TransactionId, nat>, c: map<TransactionId, nat>, d: DagState)
    requires Counted(a, b, d) && Counted(b, c, d)
    ensures Counted(a, c, d) && Extends(b, c)
  {
  }

  /** Entries stay as they are. */
  ghost predicate Extends(before: map<TransactionId, nat>, after: map<TransactionId, nat>) {
    forall id :: id in before ==> id in after && after[id] == before[id]
  }

  lemma WeighedOneMore(children: seq<TransactionId>, c: TransactionId, before: map<TransactionId, nat>,
                       after: map<TransactionId, nat>)
    requires forall id :: id in before ==> id in after && after[id] == before[id]
    requires c in after && forall x :: x in children ==> x in before
    ensures forall x :: x in children + [c] ==> x in after
    ensures Weighed(children + [c], after) == Weighed(children, before) + [Weighted(c, after[c])]
  {
  }

  /** Some pair of found ancestors has one sender. */
  predicate SharesSender(txs: Transactions, as1: set<TransactionId>, as2: set<TransactionId>) {
    exists a, b :: a in as1 && b in as2 && a in txs && b in txs && txs[a].sender == txs[b].sender
  }

  /** Both are stored and have one sender, or two of their found ancestors have. */
  predicate Conflicting(txs: Transactions, tip1: TransactionId, tip2: TransactionId) {
    && tip1 in txs && tip2 in txs
    && (|| txs[tip1].sender == txs[tip2].sender
        || SharesSender(txs, AncestorsFound(txs, tip1, 10), AncestorsFound(txs, tip2, 10)))
  }

  // ---- what a walk does with its random numbers ----

  /** From `at` the random number, reduced to the total weight of the children as the cache has it, picks the child
    * that owns it in the stably sorted list. */
  ghost predicate Steps(d: DagState, cache: map<TransactionId, nat>, at: TransactionId, random: nat, next: TransactionId) {
    && (forall c :: c in ChildList(d, at) ==> c in cache)
    && exists sorted, j :: Picks(Weighed(ChildList(d, at), cache), sorted, random, j, next)
  }

  ghost predicate Picks(cs: seq<Weighted>, sorted: seq<Weighted>, random: nat, j: nat, next: TransactionId) {
    && StableSort(sorted, cs) && TotalWeight(sorted) >= 1
    && Owns(sorted, j, random % TotalWeight(sorted)) && next == sorted[j].id
  }

  /** A path from genesis, one step per random number, as long as there are children and the depth allows. */
  ghost predicate Walks(d: DagState, cache: map<TransactionId, nat>, depth: nat, draws: nat -> nat,
                        path: seq<TransactionId>) {
    && 1 <= |path| <= depth + 1 && path[0] == GENESIS
    && (forall k: nat :: k + 1 < |path| ==> Steps(d, cache, path[k], draws(k), path[k + 1]))
    && (|path| <= depth ==> ChildList(d, path[|path| - 1]) == [])
  }

  ghost predicate WalkEndsAt(d: DagState, cache: map<TransactionId, nat>, depth: nat, draws: nat -> nat,
                             end: TransactionId) {
    exists path :: Walks(d, cache, depth, draws, path) && path[|path| - 1] == end
  }

  /** The walk so far, which has not looked at the depth. */
  ghost predicate Under(d: DagState, cache: map<TransactionId, nat>, draws: nat -> nat, path: seq<TransactionId>,
                        at: TransactionId) {
    && path != [] && path[0] == GENESIS && path[|path| - 1] == at
    && forall k: nat :: k + 1 < |path| ==> Steps(d, cache, path[k], draws(k), path[k + 1])
  }

  lemma StepsStay(d: DagState, before: map<TransactionId, nat>, after: map<TransactionId, nat>, at: TransactionId,
                  random: nat, next: TransactionId)
    requires Steps(d, before, at, random, next) && Extends(before, after)
    ensures Steps(d, after, at, random, next)
  {
    assert Weighed(ChildList(d, at), before) == Weighed(ChildList(d, at), after);
  }

  lemma UnderOneMore(d: DagState, before: map<TransactionId, nat>, after: map<TransactionId, nat>, draws: nat -> nat,
                     path: seq<TransactionId>, at: TransactionId, next: TransactionId)
    requires Under(d, before, draws, path, at) && Extends(before, after)
    requires Steps(d, after, at, draws(|path| - 1), next)
    ensures Under(d, after, draws, path + [next], next)
  {
    var longer := path + [next];
    forall k: nat | k + 1 < |longer| ensures Steps(d, after, longer[k], draws(k), longer[k + 1]) {
      if k + 1 < |path| {
        StepsStay(d, before, after, path[k], draws(k), path[k + 1]);
      }
    }
  }

  lemma StepIsToAChild(d: DagState, cache: map<TransactionId, nat>, at: TransactionId, random: nat, next: TransactionId)
    requires Steps(d, cache, at, random, next)
    ensures next in ChildList(d, at)
  {
    var sorted, j :| Picks(Weighed(ChildList(d, at), cache), sorted, random, j, next);
    SameMembers(sorted, Weighed(ChildList(d, at), cache));
    assert sorted[j] in sorted;
  }

  /** Every later node of a walk is stored, one link below the node before, and below genesis. */
  lemma {:induction false} PathDescends(d: DagState, cache: map<TransactionId, nat>, depth: nat, draws: nat -> nat,
                                        path: seq<TransactionId>, k: nat)
    requires ChildrenExact(d) && Walks(d, cache, depth, draws, path) && 1 <= k < |path|
    ensures path[k] in d.transactions && Above(d.transactions, k - 1, path[k], path[1])
    ensures path[k] in Below(d.transactions, GENESIS)
  {
    var before: nat := k - 1;
    assert Steps(d, cache, path[before], draws(before), path[before + 1]);
    StepIsToAChild(d, cache, path[before], draws(before), path[k]);
    ChildKeys(d, path[before]);
    if k > 1 {
      PathDescends(d, cache, depth, draws, path, before);
      OneStepDown(d, path[before], path[k], before, path[1]);
    }
    ChildIsBelow(d.transactions, GENESIS, path[before], path[k]);
  }

  /** At genesis or at a stored transaction below it; at a stored one when there is any, and where nothing hangs below
    * when the walk may take more steps than there are transactions. */
  ghost predicate EndsWell(d: DagState, depth: nat, end: TransactionId) {
    && end in Below(d.transactions, GENESIS)
    && (end == GENESIS || end in d.transactions)
    && (d.transactions != map[] && depth >= 1 ==> end in d.transactions)
    && (depth > |d.transactions| ==> ChildList(d, end) == [])
  }

  /** A chain of n links between stored transactions. */
  ghost predicate StoredChain(txs: Transactions, n: nat) {
    exists a, b :: a in txs && b in txs && Above(txs, n, a, b)
  }

  /** What a walk of n - 1 steps, at least one, says about where it ends. */
  ghost predicate EndsAfter(d: DagState, depth: nat, n: nat, end: TransactionId) {
    && 2 <= n <= depth + 1 && StoredChain(d.transactions, n - 2)
    && end in d.transactions && end in Below(d.transactions, GENESIS)
    && (n <= depth ==> ChildList(d, end) == [])
  }

  lemma WalkIsAChain(d: DagState, cache: map<TransactionId, nat>, depth: nat, draws: nat -> nat, path: seq<TransactionId>)
    requires ChildrenExact(d) && Walks(d, cache, depth, draws, path) && |path| > 1
    ensures EndsAfter(d, depth, |path|, path[|path| - 1])
  {
    PathDescends(d, cache, depth, draws, path, 1);
    PathDescends(d, cache, depth, draws, path, |path| - 1);
  }

  lemma StoredChainIsShort(txs: Transactions, n: nat)
    requires Grown(txs) && StoredChain(txs, n)
    ensures n < |txs|
  {
    var a, b :| a in txs && b in txs && Above(txs, n, a, b);
    ChainShorterThanStore(txs, n, a, b);
  }

  lemma LongWalkEndsWell(d: DagState, depth: nat, n: nat, end: TransactionId)
    requires Grown(d.transactions) && EndsAfter(d, depth, n, end)
    ensures EndsWell(d, depth, end)
  {
    StoredChainIsShort(d.transactions, n - 2);
  }

  lemma WalkEndsWell(d: DagState, cache: map<TransactionId, nat>, depth: nat, draws: nat -> nat, path: seq<TransactionId>)
    requires ValidDag(d) && Walks(d, cache, depth, draws, path)
    ensures EndsWell(d, depth, path[|path| - 1])
  {
    if |path| > 1 {
      WalkIsAChain(d, cache, depth, draws, path);
      LongWalkEndsWell(d, depth, |path|, path[|path| - 1]);
    } else if d.transactions != map[] {
      GenesisHasAChild(d);
    }
  }

  lemma WalksStay(d: DagState, before: map<TransactionId, nat>, after: map<TransactionId, nat>, depth: nat,
                  draws: nat -> nat, end: TransactionId)
    requires WalkEndsAt(d, before, depth, draws, end) && Extends(before, after)
    ensures WalkEndsAt(d, after, depth, draws, end)
  {
    var path :| Walks(d, before, depth, draws, path) && path[|path| - 1] == end;
    forall k: nat | k + 1 < |path| ensures Steps(d, after, path[k], draws(k), path[k + 1]) {
      StepsStay(d, before, after, path[k], draws(k), path[k + 1]);
    }
  }

  // ---- what a selection does with its walks ----

  /** The pair is used, or both are the same, or they conflict. */
  predicate Rejected(txs: Transactions, first: TransactionId, candidate: TransactionId) {
    || HasTransactionWithParents(txs, Parents(first, candidate))
    || candidate == first
    || Conflicting(txs, first, candidate)
  }

  predicate AllRejected(txs: Transactions, first: TransactionId, candidates: seq<TransactionId>) {
    forall c :: c in candidates ==> Rejected(txs, first, c)
  }

  /** The first walk ends at the first parent, the following ones at the candidates. */
  ghost predicate Walked(d: DagState, cache: map<TransactionId, nat>, depth: nat, draws: nat -> nat -> nat,
                         first: TransactionId, candidates: seq<TransactionId>) {
    && WalkEndsAt(d, cache, depth, draws(0), first)
    && forall i: nat :: i < |candidates| ==> WalkEndsAt(d, cache, depth, draws(i + 1), candidates[i])
  }

  /** All candidates but the last are rejected; the last is the second parent, or the tenth is rejected too and
    * genesis takes its place. */
  ghost predicate Selected(d: DagState, cache: map<TransactionId, nat>, depth: nat, draws: nat -> nat -> nat,
                           pair: Parents, candidates: seq<TransactionId>) {
    && Walked(d, cache, depth, draws, pair.first, candidates)
    && 1 <= |candidates| <= 10
    && AllRejected(d.transactions, pair.first, candidates[..|candidates| - 1])
    && var last := candidates[|candidates| - 1];
       if Rejected(d.transactions, pair.first, last) then |candidates| == 10 && pair.second == GENESIS
       else pair.second == last
  }

  lemma RejectedOneMore(txs: Transactions, first: TransactionId, candidates: seq<TransactionId>, next: TransactionId)
    requires AllRejected(txs, first, candidates) && Rejected(txs, first, next)
    ensures AllRejected(txs, first, candidates + [next])
  {
  }

  lemma AcceptedIsSelected(d: DagState, cache: map<TransactionId, nat>, depth: nat, draws: nat -> nat -> nat,
                           first: TransactionId, candidates: seq<TransactionId>, next: TransactionId)
    requires Walked(d, cache, depth, draws, first, candidates + [next]) && |candidates| < 10
    requires AllRejected(d.transactions, first, candidates) && !Rejected(d.transactions, first, next)
    ensures Selected(d, cache, depth, draws, Parents(first, next), candidates + [next])
  {
    assert (candidates + [next])[..|candidates|] == candidates;
  }

  lemma TenRejectedIsSelected(d: DagState, cache: map<TransactionId, nat>, depth: nat, draws: nat -> nat -> nat,
                              first: TransactionId, candidates: seq<TransactionId>)
    requires Walked(d, cache, depth, draws, first, candidates) && |candidates| == 10
    requires AllRejected(d.transactions, first, candidates)
    ensures Selected(d, cache, depth, draws, Parents(first, GENESIS), candidates)
  {
    SplitLast(candidates);
  }

  lemma WalkedOneMore(d: DagState, before: map<TransactionId, nat>, after: map<TransactionId, nat>, depth: nat,
                      draws: nat -> nat -> nat, first: TransactionId, candidates: seq<TransactionId>, next: TransactionId)
    requires Walked(d, before, depth, draws, first, candidates) && Extends(before, after)
    requires WalkEndsAt(d, after, depth, draws(|candidates| + 1), next)
    ensures Walked(d, after, depth, draws, first, candidates + [next])
  {
    WalksStay(d, before, after, depth, draws(0), first);
    var longer := candidates + [next];
    forall i: nat | i < |longer| ensures WalkEndsAt(d, after, depth, draws(i + 1), longer[i]) {
      if i < |candidates| {
        WalksStay(d, before, after, depth, draws(i + 1), candidates[i]);
      }
    }
  }

  // ---- the random numbers alone decide where a walk ends ----

  lemma LastIsLightest(cs: seq<Weighted>, w: nat)
    requires cs != [] && SortedByWeight(cs)
    ensures OfWeight(cs, w) != [] ==> w >= cs[|cs| - 1].weight
    ensures OfWeight(cs, cs[|cs| - 1].weight) != []
  {
    if w < cs[|cs| - 1].weight {
      NoneOfWeight(cs, w);
    }
  }

  lemma DropLast(xs: seq<Weighted>, x: Weighted, ys: seq<Weighted>, y: Weighted)
    requires xs + [x] == ys + [y]
    ensures xs == ys && x == y
  {
    assert xs == (xs + [x])[..|xs + [x]| - 1] && x == (xs + [x])[|xs + [x]| - 1];
    assert ys == (ys + [y])[..|ys + [y]| - 1];
  }

  /** There is one stable descending order. */
  lemma {:induction false} StableSortIsUnique(a: seq<Weighted>, b: seq<Weighted>)
    requires SortedByWeight(a) && SortedByWeight(b) && forall w :: OfWeight(a, w) == OfWeight(b, w)
    ensures a == b
  {
    if a == [] || b == [] {
      if a != [] {
        LastIsLightest(a, 0);
      } else if b != [] {
        LastIsLightest(b, 0);
      }
    } else {
      var i, x, j, y := a[..|a| - 1], a[|a| - 1], b[..|b| - 1], b[|b| - 1];
      LastIsLightest(a, y.weight);
      LastIsLightest(b, x.weight);
      LastIsLightest(a, x.weight);
      LastIsLightest(b, y.weight);
      DropLast(OfWeight(i, x.weight), x, OfWeight(j, x.weight), y);
      forall w ensures OfWeight(i, w) == OfWeight(j, w) {
        if w != x.weight {
          assert OfWeight(a, w) == OfWeight(i, w) + [] == OfWeight(i, w);
          assert OfWeight(b, w) == OfWeight(j, w) + [] == OfWeight(j, w);
        }
      }
      StableSortIsUnique(i, j);
    }
  }

  lemma StepIsDetermined(d: DagState, cache: map<TransactionId, nat>, at: TransactionId, random: nat,
                         a: TransactionId, b: TransactionId)
    requires Steps(d, cache, at, random, a) && Steps(d, cache, at, random, b)
    ensures a == b
  {
    var cs := Weighed(ChildList(d, at), cache);
    var sorted1, i :| Picks(cs, sorted1, random, i, a);
    var sorted2, j :| Picks(cs, sorted2, random, j, b);
    StableSortIsUnique(sorted1, sorted2);
    OwnerIsUnique(sorted1, i, j, random % TotalWeight(sorted1));
  }

  lemma {:induction false} SamePath(d: DagState, cache: map<TransactionId, nat>, depth: nat, draws: nat -> nat,
                                    a: seq<TransactionId>, b: seq<TransactionId>, n: nat)
    requires Walks(d, cache, depth, draws, a) && Walks(d, cache, depth, draws, b) && n < |a| && n < |b|
    ensures a[n] == b[n]
  {
    if n > 0 {
      var k: nat := n - 1;
      SamePath(d, cache, depth, draws, a, b, k);
      assert Steps(d, cache, a[k], draws(k), a[k + 1]) && Steps(d, cache, b[k], draws(k), b[k + 1]);
      StepIsDetermined(d, cache, a[k], draws(k), a[n], b[n]);
    }
  }

  lemma NoLongerPath(d: DagState, cache: map<TransactionId, nat>, depth: nat, draws: nat -> nat,
                     a: seq<TransactionId>, b: seq<TransactionId>)
    requires Walks(d, cache, depth, draws, a) && Walks(d, cache, depth, draws, b)
    ensures |a| <= |b|
  {
    if |b| < |a| {
      var k: nat := |b| - 1;
      SamePath(d, cache, depth, draws, a, b, k);
      assert Steps(d, cache, a[k], draws(k), a[k + 1]);
      StepIsToAChild(d, cache, a[k], draws(k), a[k + 1]);
    }
  }

  /** The DAG, the weights and the random numbers alone decide the whole walk. */
  lemma WalkIsDetermined(d: DagState, cache: map<TransactionId, nat>, depth: nat, draws: nat -> nat,
                         a: seq<TransactionId>, b: seq<TransactionId>)
    requires Walks(d, cache, depth, draws, a) && Walks(d, cache, depth, draws, b)
    ensures a == b
  {
    NoLongerPath(d, cache, depth, draws, a, b);
    NoLongerPath(d, cache, depth, draws, b, a);
    forall n: nat | n < |a| ensures a[n] == b[n] {
      SamePath(d, cache, depth, draws, a, b, n);
    }
  }

  class ParentSelectionAlgorithm {
    const maxTipAgeMs: nat
    const walkDepth: nat
    var weightCache: map<TransactionId, nat>

    constructor (maxTipAgeMs: nat, walkDepth: nat)
      ensures weightCache == map[] && this.maxTipAgeMs == maxTipAgeMs && this.walkDepth == walkDepth
    {
      this.maxTipAgeMs, this.walkDepth, weightCache := maxTipAgeMs, walkDepth, map[];
    }

    /** Every cached weight is what a fresh count on this DAG would give. */
    ghost predicate CacheAgrees(d: DagState)
      reads this
    {
      forall id :: id in weightCache ==> weightCache[id] == Weight(d, id)
    }

    /** Cached, or counted as one plus the number of strict descendants. */
    method CalculateCumulativeWeight(id: TransactionId, dag: DAG) returns (weight: nat)
      requires dag.Valid()
      modifies this`weightCache
      ensures weight == GetOr(old(weightCache), id, Weight(dag.State(), id))
      ensures weightCache == old(weightCache)[id := weight]
      ensures old(CacheAgrees(dag.State())) ==> CacheAgrees(dag.State()) && weight == Weight(dag.State(), id)
    {
      if id in weightCache {
        assert weightCache == weightCache[id := weightCache[id]];
        return weightCache[id];
      }
      weight := CountBelow(id, dag);
      weightCache := weightCache[id := weight];
    }

    method CountBelow(id: TransactionId, dag: DAG) returns (weight: nat)
      requires ChildrenExact(dag.State()) && Grown(dag.transactions)
      ensures weight == Weight(dag.State(), id)
    {
      var visited: set<TransactionId> := {};
      var queue := [id];
      weight := 0;
      ghost var d := dag.State();
      ghost var space := d.transactions.Keys + {id};
      DescendStart(d.transactions, id);
      while queue != []
        invariant Descending(d.transactions, id, visited, queue) && weight == |visited|
        decreases |space - visited|, |queue|
      {
        var current := queue[|queue| - 1];
        var rest := queue[..|queue| - 1];
        if current in visited {
          DescendSkip(d.transactions, id, visited, queue);
          queue := rest;
        } else {
          var children := GetOr(dag.children, current, []);
          DescendExpand(d, id, visited, queue);
          queue := rest + children;
          SubsetSize(space - (visited + {current}), space - visited);
          SizeWithOneMore(visited, current);
          visited := visited + {current};
          weight := weight + 1;
        }
      }
      DescendDone(d.transactions, id, visited);
    }

    method WeighChildren(children: seq<TransactionId>, dag: DAG) returns (weighted: seq<Weighted>)
      requires dag.Valid()
      modifies this`weightCache
      ensures Counted(old(weightCache), weightCache, dag.State())
      ensures forall c :: c in children ==> c in weightCache
      ensures weighted == Weighed(children, weightCache)
    {
      weighted := [];
      for i := 0 to |children|
        invariant Counted(old(weightCache), weightCache, dag.State())
        invariant forall c :: c in children[..i] ==> c in weightCache
        invariant weighted == Weighed(children[..i], weightCache)
      {
        ghost var before := weightCache;
        var w := CalculateCumulativeWeight(children[i], dag);
        WeighedOneMore(children[..i], children[i], before, weightCache);
        assert children[..i + 1] == children[..i] + [children[i]];
        weighted := weighted + [Weighted(children[i], w)];
      }
      assert children[..|children|] == children;
    }

    /** A walk that may take more steps than there are transactions ends where nothing hangs below. */
    method RandomWalk(dag: DAG, draws: nat -> nat) returns (current: TransactionId, ghost path: seq<TransactionId>)
      requires dag.Valid() && SafeCache(weightCache, dag.State())
      modifies this`weightCache
      ensures SafeCache(weightCache, dag.State()) && Counted(old(weightCache), weightCache, dag.State())
      ensures Walks(dag.State(), weightCache, walkDepth, draws, path) && current == path[|path| - 1]
      ensures EndsWell(dag.State(), walkDepth, current)
    {
      current, path := FollowDraws(dag, draws);
      CountedIsSafe(old(weightCache), weightCache, dag.State());
      WalkEndsWell(dag.State(), weightCache, walkDepth, draws, path);
    }

    /** The loop: from genesis towards the tips, the k-th step by the k-th random number. */
    method FollowDraws(dag: DAG, draws: nat -> nat) returns (current: TransactionId, ghost path: seq<TransactionId>)
      requires dag.Valid() && SafeCache(weightCache, dag.State())
      modifies this`weightCache
      ensures Counted(old(weightCache), weightCache, dag.State())
      ensures Walks(dag.State(), weightCache, walkDepth, draws, path) && current == path[|path| - 1]
    {
      current := GENESIS;
      path := [GENESIS];
      ghost var start, d := weightCache, dag.State();
      for step := 0 to walkDepth
        invariant Counted(start, weightCache, d)
        invariant Under(d, weightCache, draws, path, current) && |path| == step + 1
      {
        var children := GetOr(dag.children, current, []);
        if children == [] {
          return;
        }
        CountedIsSafe(start, weightCache, d);
        ghost var before, cached := current, weightCache;
        current := WalkStep(dag, current, children, draws(step));
        CountedThen(start, cached, weightCache, d);
        UnderOneMore(d, cached, weightCache, draws, path, before, current);
        path := path + [current];
      }
    }

    /** One step: the random number, reduced to the total weight, picks the child that owns it. */
    method WalkStep(dag: DAG, at: TransactionId, children: seq<TransactionId>, random: nat) returns (next: TransactionId)
      requires dag.Valid() && SafeCache(weightCache, dag.State())
      requires children != [] && children == ChildList(dag.State(), at)
      modifies this`weightCache
      ensures SafeCache(weightCache, dag.State()) && Counted(old(weightCache), weightCache, dag.State())
      ensures Steps(dag.State(), weightCache, at, random, next)
    {
      ghost var before := weightCache;
      var weighted := WeighChildren(children, dag);
      CountedIsSafe(before, weightCache, dag.State());
      var inOrder := SortByWeight(weighted);
      EntriesAreChildren(children, weightCache, inOrder, dag.State());
      PositiveTotal(inOrder);
      var total := PrefixSum(inOrder);
      var j := ChooseWeighted(inOrder, random % total);
      next := inOrder[j].id;
      assert Picks(weighted, inOrder, random, j, next);
    }

    /** Same sender, or a pair of found ancestors with one sender. */
    method CheckDoubleSpendConflict(tip1: TransactionId, tip2: TransactionId, dag: DAG) returns (conflict: bool)
      ensures conflict <==> Conflicting(dag.transactions, tip1, tip2)
    {
      if tip1 !in dag.transactions || tip2 !in dag.transactions {
        return false;
      }
      if dag.transactions[tip1].sender == dag.transactions[tip2].sender {
        return true;
      }
      var ancestors1 := dag.GetAncestors(tip1, 10);
      var ancestors2 := dag.GetAncestors(tip2, 10);
      return SharesSender(dag.transactions, ancestors1, ancestors2);
    }

    predicate Fresh(now: nat, tx: Transaction) {
      (if now < tx.timestamp then 0 else now - tx.timestamp) <= maxTipAgeMs
    }

    /** Parents for a new transaction. The first walk gives the first parent; the second one is where the first of at
      * most ten more walks ends that is not rejected, or genesis. */
    method SelectParents(tips: seq<Transaction>, dag: DAG, now: nat, draws: nat -> nat -> nat)
      returns (r: Result<Parents, SelectionError>, ghost candidates: seq<TransactionId>)
      requires dag.Valid() && SafeCache(weightCache, dag.State())
      modifies this`weightCache
      ensures SafeCache(weightCache, dag.State()) && Counted(old(weightCache), weightCache, dag.State())
      ensures r.Err? <==> tips != [] && forall tx :: tx in tips ==> tx.timestamp + maxTipAgeMs < now
      ensures tips == [] ==> r == Ok(Parents(GENESIS, GENESIS))
      ensures r.Ok? && tips != [] ==> Selected(dag.State(), weightCache, walkDepth, draws, r.value, candidates)
      ensures r.Ok? && tips != [] && dag.transactions != map[] && walkDepth >= 1 ==> r.value.first in dag.transactions
      ensures r.Ok? && tips != [] && walkDepth > |dag.transactions| ==> ChildList(dag.State(), r.value.first) == []
      ensures r.Ok? ==> ParentKnown(dag.transactions, r.value.first)
      ensures r.Ok? && r.value.second != GENESIS ==>
                && r.value.second in dag.transactions && r.value.second in Below(dag.transactions, GENESIS)
                && r.value.second != r.value.first
                && !Conflicting(dag.transactions, r.value.first, r.value.second)
      ensures r.Ok? && (r.value.second != GENESIS || ChildList(dag.State(), r.value.first) == []) ==>
                !HasTransactionWithParents(dag.transactions, r.value)
      ensures r.Ok? && walkDepth > |dag.transactions| ==> !HasTransactionWithParents(dag.transactions, r.value)
    {
      candidates := [];
      if tips == [] {
        return Ok(Parents(GENESIS, GENESIS)), candidates;
      }
      if !exists tx :: tx in tips && Fresh(now, tx) {
        return Err(NoValidTips), candidates;
      }
      var parent1;
      ghost var path;
      parent1, path := RandomWalk(dag, draws(0));
      var parent2;
      parent2, candidates := SecondParent(parent1, dag, draws);
      if ChildList(dag.State(), parent1) == [] {
        ChildlessIsUnused(dag.State(), parent1, parent2);
      }
      return Ok(Parents(parent1, parent2)), candidates;
    }

    /** The attempts at a second parent. */
    method SecondParent(parent1: TransactionId, dag: DAG, draws: nat -> nat -> nat)
      returns (parent2: TransactionId, ghost candidates: seq<TransactionId>)
      requires dag.Valid() && SafeCache(weightCache, dag.State())
      requires WalkEndsAt(dag.State(), weightCache, walkDepth, draws(0), parent1)
      modifies this`weightCache
      ensures SafeCache(weightCache, dag.State()) && Counted(old(weightCache), weightCache, dag.State())
      ensures Selected(dag.State(), weightCache, walkDepth, draws, Parents(parent1, parent2), candidates)
      ensures parent2 == GENESIS || (parent2 in dag.transactions && parent2 in Below(dag.transactions, GENESIS))
    {
      candidates := [];
      ghost var start, d := weightCache, dag.State();
      var attempts := 0;
      while attempts < 10
        invariant attempts <= 10
        invariant Counted(start, weightCache, d)
        invariant |candidates| == attempts && AllRejected(d.transactions, parent1, candidates)
        invariant Walked(d, weightCache, walkDepth, draws, parent1, candidates)
        decreases 10 - attempts
      {
        ghost var cached := weightCache;
        CountedIsSafe(start, weightCache, d);
        var candidate, rejected := Attempt(parent1, dag, draws(attempts + 1));
        CountedThen(start, cached, weightCache, d);
        WalkedOneMore(d, cached, weightCache, walkDepth, draws, parent1, candidates, candidate);
        if !rejected {
          CountedIsSafe(start, weightCache, d);
          AcceptedIsSelected(d, weightCache, walkDepth, draws, parent1, candidates, candidate);
          return candidate, candidates + [candidate];
        }
        RejectedOneMore(d.transactions, parent1, candidates, candidate);
        candidates := candidates + [candidate];
        attempts := attempts + 1;
      }
      CountedIsSafe(start, weightCache, d);
      TenRejectedIsSelected(d, weightCache, walkDepth, draws, parent1, candidates);
      parent2 := GENESIS;
    }

    /** One more walk, and whether its end is no second parent. */
    method Attempt(parent1: TransactionId, dag: DAG, draws: nat -> nat) returns (candidate: TransactionId, rejected: bool)
      requires dag.Valid() && SafeCache(weightCache, dag.State())
      modifies this`weightCache
      ensures Counted(old(weightCache), weightCache, dag.State())
      ensures WalkEndsAt(dag.State(), weightCache, walkDepth, draws, candidate) && EndsWell(dag.State(), walkDepth, candidate)
      ensures rejected <==> Rejected(dag.transactions, parent1, candidate)
    {
      ghost var path;
      candidate, path := RandomWalk(dag, draws);
      if HasTransactionWithParents(dag.transactions, Parents(parent1, candidate)) {
        return candidate, true;
      }
      var conflict := CheckDoubleSpendConflict(parent1, candidate, dag);
      rejected := candidate == parent1 || conflict;
    }
  }
}
