/** When the ledger replay transfers everything, whatever the order (src/node.rs). */
module DeadEnds {
  import opened Types
  import opened Bags
  import opened Paths
  import opened LedgerModel
  import opened Replaying

  // ---- one payment at a time ----

  function Ids(paid: seq<Transaction>): set<TransactionId> {
    set tx | tx in paid :: tx.id
  }

  /** The ledger after the listed transfers. */
  function Paid(l: LedgerState, paid: seq<Transaction>): LedgerState {
    if paid == [] then l else TransferOf(Paid(l, paid[..|paid| - 1]), paid[|paid| - 1])
  }

  /** After these transfers this one can be made. */
  predicate Payable(l: LedgerState, paid: seq<Transaction>, tx: Transaction) {
    && ParentsApplied(Ids(paid), tx)
    && TransferError(Paid(l, paid), tx.sender, tx.receiver, tx.amount, tx.fee).None?
  }

  /** The listed transfers can be made one after another. */
  predicate Playable(l: LedgerState, paid: seq<Transaction>) {
    paid == [] || (Playable(l, paid[..|paid| - 1]) && Payable(l, paid[..|paid| - 1], paid[|paid| - 1]))
  }

  /** Some of the transactions are paid, and none of the others can be. */
  ghost predicate Stuck(l: LedgerState, all: seq<Transaction>, paid: seq<Transaction>, left: seq<Transaction>) {
    && Playable(l, paid)
    && multiset(paid) + multiset(left) == multiset(all)
    && forall tx :: tx in left ==> !Payable(l, paid, tx)
  }

  /** Ledgers and transactions with which nothing can overflow. */
  ghost predicate Ample(l: LedgerState, all: seq<Transaction>) {
    && Total(l) <= U64_MAX && BurnTracked(l) && l.nonces == map[]
    && OrdinaryParties(all)
    && forall tx :: tx in all ==> tx.amount + tx.fee <= U64_MAX
  }

  lemma PlayableAppend(l: LedgerState, paid: seq<Transaction>, tx: Transaction)
    ensures Playable(l, paid + [tx]) <==> Playable(l, paid) && Payable(l, paid, tx)
    ensures Paid(l, paid + [tx]) == TransferOf(Paid(l, paid), tx)
    ensures Ids(paid + [tx]) == Ids(paid) + {tx.id}
  {
    assert (paid + [tx])[..|paid|] == paid;
  }

  /** The accounts after the listed transfers. */
  lemma {:induction false} PaidBooks(l: LedgerState, paid: seq<Transaction>)
    requires Playable(l, paid) && OrdinaryParties(paid) && l.nonces == map[]
    ensures Total(Paid(l, paid)) == Total(l)
    ensures forall a :: Balance(Paid(l, paid), a) == Balance(l, a) + Net(paid, a)
    ensures forall a :: Nonce(Paid(l, paid), a) == HighestNonce(paid, a)
    ensures BurnTracked(l) ==> BurnTracked(Paid(l, paid))
  {
    if paid != [] {
      var init, tx := paid[..|paid| - 1], paid[|paid| - 1];
      SplitLast(paid);
      PaidBooks(l, init);
      TryKeepsBooks(l, Played(l, init, [], false), tx);
      if BurnTracked(l) {
        OpKeepsBurn(Paid(l, init), Pay(tx.sender, tx.receiver, tx.amount, tx.fee));
      }
    }
  }

  /** With room for everything the only obstacle is a balance that is too small. */
  lemma OnlyBalancesStop(l: LedgerState, all: seq<Transaction>, paid: seq<Transaction>, tx: Transaction)
    requires Ample(l, all) && Playable(l, paid) && tx in all
    requires forall t :: t in paid ==> t in all
    ensures var e := TransferError(Paid(l, paid), tx.sender, tx.receiver, tx.amount, tx.fee);
            && (e.None? <==> tx.amount + tx.fee <= Balance(l, tx.sender) + Net(paid, tx.sender))
            && (e.Some? ==> e.value.InsufficientBalance?)
  {
    PaidBooks(l, paid);
    if tx.amount + tx.fee <= Balance(Paid(l, paid), tx.sender) {
      TransferCannotOverflow(Paid(l, paid), tx.sender, tx.receiver, tx.amount, tx.fee);
    }
  }

  lemma CoveredIsPayable(l: LedgerState, all: seq<Transaction>, paid: seq<Transaction>, tx: Transaction)
    requires Ample(l, all) && Playable(l, paid) && tx in all
    requires forall t :: t in paid ==> t in all
    requires ParentsApplied(Ids(paid), tx) && tx.amount + tx.fee <= Balance(l, tx.sender) + Net(paid, tx.sender)
    ensures Payable(l, paid, tx)
  {
    OnlyBalancesStop(l, all, paid, tx);
  }

  // ---- the passes make single payments until they are stuck ----

  /** The replay state in which exactly these transfers were made. */
  function Played(l: LedgerState, paid: seq<Transaction>, pending: seq<Transaction>, progress: bool): Replay {
    Replay(Paid(l, paid), Ids(paid), paid, pending, progress)
  }

  ghost predicate Tracks(l: LedgerState, r: Replay) {
    Playable(l, r.moved) && r == Played(l, r.moved, r.pending, r.progress)
  }

  ghost predicate Among(xs: seq<Transaction>, all: seq<Transaction>) {
    forall tx :: tx in xs ==> tx in all
  }

  lemma TryPlays(l: LedgerState, all: seq<Transaction>, r: Replay, tx: Transaction)
    requires Ample(l, all) && Tracks(l, r) && Among(r.moved, all) && tx in all
    ensures Try(r, tx) == if Payable(l, r.moved, tx) then Played(l, r.moved + [tx], r.pending, true)
                          else Played(l, r.moved, r.pending + [tx], r.progress)
    ensures Tracks(l, Try(r, tx)) && Among(Try(r, tx).moved, all)
  {
    OnlyBalancesStop(l, all, r.moved, tx);
    PlayableAppend(l, r.moved, tx);
  }

  function Bag(r: Replay): multiset<Transaction> {
    multiset(r.moved) + multiset(r.pending)
  }

  lemma {:induction false} PassPlays(l: LedgerState, all: seq<Transaction>, r: Replay, todo: seq<Transaction>)
    requires Ample(l, all) && Tracks(l, r) && Among(r.moved, all) && Among(todo, all)
    ensures Tracks(l, RunPass(r, todo)) && Among(RunPass(r, todo).moved, all)
  {
    if todo != [] {
      SplitLast(todo);
      PassPlays(l, all, r, todo[..|todo| - 1]);
      TryPlays(l, all, RunPass(r, todo[..|todo| - 1]), todo[|todo| - 1]);
    }
  }

  /** Nothing is lost: every transaction was transferred or waits. */
  lemma {:induction false} PassKeepsBag(l: LedgerState, all: seq<Transaction>, r: Replay, todo: seq<Transaction>)
    requires Ample(l, all) && Tracks(l, r) && Among(r.moved, all) && Among(todo, all)
    ensures Bag(RunPass(r, todo)) == Bag(r) + multiset(todo)
  {
    if todo != [] {
      var init, tx := todo[..|todo| - 1], todo[|todo| - 1];
      SplitLast(todo);
      PassKeepsBag(l, all, r, init);
      PassPlays(l, all, r, init);
      TryPlays(l, all, RunPass(r, init), tx);
      LastInBag(todo);
      TryKeepsBag(RunPass(r, init), tx, Bag(r) + multiset(init));
    }
  }

  lemma TryKeepsBag(r: Replay, tx: Transaction, bag: multiset<Transaction>)
    requires Bag(r) == bag
    requires || (Try(r, tx).moved == r.moved + [tx] && Try(r, tx).pending == r.pending)
             || (Try(r, tx).moved == r.moved && Try(r, tx).pending == r.pending + [tx])
    ensures Bag(Try(r, tx)) == bag + multiset{tx}
  {
  }

  /** A pass without progress tried every transaction in the same state. */
  lemma {:induction false} PassIdles(l: LedgerState, all: seq<Transaction>, r: Replay, todo: seq<Transaction>)
    requires Ample(l, all) && Tracks(l, r) && Among(r.moved, all) && Among(todo, all)
    ensures r.progress ==> RunPass(r, todo).progress
    ensures !RunPass(r, todo).progress ==>
              && RunPass(r, todo) == Played(l, r.moved, r.pending + todo, false)
              && forall tx :: tx in todo ==> !Payable(l, r.moved, tx)
  {
    if todo != [] {
      var init, tx := todo[..|todo| - 1], todo[|todo| - 1];
      SplitLast(todo);
      PassIdles(l, all, r, init);
      PassPlays(l, all, r, init);
      TryPlays(l, all, RunPass(r, init), tx);
    } else {
      assert r.pending + todo == r.pending;
    }
  }

  lemma {:induction false} RunPlays(l: LedgerState, all: seq<Transaction>, r: Replay)
    requires Ample(l, all) && Tracks(l, r) && Bag(r) == multiset(all)
    requires !r.progress ==> forall tx :: tx in r.pending ==> !Payable(l, r.moved, tx)
    ensures Tracks(l, RunAll(r)) && Stuck(l, all, RunAll(r).moved, RunAll(r).pending)
    decreases |r.pending|, r.progress
  {
    if r.progress && r.pending != [] {
      BagHolds(r, all);
      PassPlays(l, all, Restart(r), r.pending);
      PassKeepsBag(l, all, Restart(r), r.pending);
      PassIdles(l, all, Restart(r), r.pending);
      assert Bag(Restart(r)) + multiset(r.pending) == Bag(r);
      RunPlays(l, all, RunPass(Restart(r), r.pending));
    }
  }

  lemma BagHolds(r: Replay, all: seq<Transaction>)
    requires Bag(r) == multiset(all)
    ensures Among(r.moved, all) && Among(r.pending, all)
  {
    forall tx | tx in r.moved || tx in r.pending ensures tx in all {
      assert tx in Bag(r);
      assert tx in multiset(all);
    }
  }

  /** The replay ends where no remaining payment can be made. */
  lemma ReplayEndsStuck(l: LedgerState, all: seq<Transaction>)
    requires Ample(l, all)
    ensures var r := ReplayFrom(l, all);
            Stuck(l, all, r.moved, r.pending) && r.ledger == Paid(l, r.moved)
  {
    RunPlays(l, all, Replay(l, {}, [], all, true));
  }

  /** A playable list is transferred in one pass. */
  lemma {:induction false} PassPays(l: LedgerState, all: seq<Transaction>, paid: seq<Transaction>)
    requires Ample(l, all) && Playable(l, paid) && Among(paid, all)
    ensures RunPass(Played(l, [], [], false), paid) == Played(l, paid, [], paid != [])
  {
    if paid != [] {
      var init, tx := paid[..|paid| - 1], paid[|paid| - 1];
      SplitLast(paid);
      PassPays(l, all, init);
      TryPlays(l, all, Played(l, init, [], init != []), tx);
    }
  }

  /** A stuck rest stays as it is. */
  lemma {:induction false} PassWaits(l: LedgerState, all: seq<Transaction>, paid: seq<Transaction>,
                                     left: seq<Transaction>, progress: bool)
    requires Ample(l, all) && Playable(l, paid) && Among(paid, all) && Among(left, all)
    requires forall tx :: tx in left ==> !Payable(l, paid, tx)
    ensures RunPass(Played(l, paid, [], progress), left) == Played(l, paid, left, progress)
  {
    if left != [] {
      var init, tx := left[..|left| - 1], left[|left| - 1];
      SplitLast(left);
      PassWaits(l, all, paid, init, progress);
      TryPlays(l, all, Played(l, paid, init, progress), tx);
    }
  }

  lemma {:induction false} PassConcat(r: Replay, xs: seq<Transaction>, ys: seq<Transaction>)
    ensures RunPass(r, xs + ys) == RunPass(RunPass(r, xs), ys)
  {
    if ys == [] {
      assert xs + ys == xs;
    } else {
      assert (xs + ys)[..|xs + ys| - 1] == xs + ys[..|ys| - 1];
      PassConcat(r, xs, ys[..|ys| - 1]);
    }
  }

  lemma {:induction false} StuckStays(l: LedgerState, all: seq<Transaction>, paid: seq<Transaction>,
                                      left: seq<Transaction>, progress: bool)
    requires Ample(l, all) && Stuck(l, all, paid, left)
    ensures RunAll(Played(l, paid, left, progress)).moved == paid
    ensures RunAll(Played(l, paid, left, progress)).pending == left
  {
    BagHolds(Played(l, paid, left, progress), all);
    PassWaits(l, all, paid, left, false);
    assert Restart(Played(l, paid, left, progress)) == Played(l, paid, [], false);
  }

  /** Every stuck point is where the replay ends for some order. */
  lemma StuckIsReached(l: LedgerState, all: seq<Transaction>, paid: seq<Transaction>, left: seq<Transaction>)
    requires Ample(l, all) && Stuck(l, all, paid, left)
    ensures multiset(paid + left) == multiset(all)
    ensures ReplayFrom(l, paid + left).moved == paid && ReplayFrom(l, paid + left).pending == left
  {
    var r := Played(l, [], paid + left, true);
    assert r == Replay(l, {}, [], paid + left, true);
    BagHolds(Played(l, paid, left, true), all);
    if paid + left != [] {
      PassPays(l, all, paid);
      PassWaits(l, all, paid, left, paid != []);
      PassConcat(Restart(r), paid, left);
      StuckStays(l, all, paid, left, paid != []);
    }
  }

  ghost predicate NoDeadEnd(l: LedgerState, all: seq<Transaction>) {
    forall paid, left :: Stuck(l, all, paid, left) ==> left == []
  }

  ghost predicate Finishes(l: LedgerState, xs: seq<Transaction>) {
    ReplayFrom(l, xs).pending == []
  }

  ghost predicate EveryOrderFinishes(l: LedgerState, all: seq<Transaction>) {
    forall xs: seq<Transaction> :: multiset(xs) == multiset(all) ==> Finishes(l, xs)
  }

  /** Every order transfers everything exactly when single payments have no dead end. */
  lemma OrdersMeetDeadEnds(l: LedgerState, all: seq<Transaction>)
    requires Ample(l, all)
    ensures EveryOrderFinishes(l, all) <==> NoDeadEnd(l, all)
  {
    if EveryOrderFinishes(l, all) {
      forall paid, left | Stuck(l, all, paid, left) ensures left == [] {
        StuckIsReached(l, all, paid, left);
        assert Finishes(l, paid + left);
      }
    }
    if NoDeadEnd(l, all) {
      forall xs: seq<Transaction> | multiset(xs) == multiset(all) ensures Finishes(l, xs) {
        SameMembers(xs, all);
        ReplayEndsStuck(l, xs);
        assert Stuck(l, all, ReplayFrom(l, xs).moved, ReplayFrom(l, xs).pending);
      }
    }
  }

  // ---- a condition on the DAG that rules dead ends out ----

  function Spent(txs: seq<Transaction>, a: Address): nat {
    if txs == [] then 0
    else Spent(txs[..|txs| - 1], a) + if txs[|txs| - 1].sender == a then txs[|txs| - 1].amount + txs[|txs| - 1].fee else 0
  }

  /** Of two transactions of one sender one descends from the other,
    * unless the sender could pay at the start for all it ever sends. */
  ghost predicate Orderly(txs: Transactions, l: LedgerState, list: seq<Transaction>) {
    forall a, b :: a in list && b in list && a != b && a.sender == b.sender ==>
      Spent(list, a.sender) <= Balance(l, a.sender) || StrictAncestor(txs, a.id, b.id) || StrictAncestor(txs, b.id, a.id)
  }

  lemma {:induction false} SpentConcat(xs: seq<Transaction>, ys: seq<Transaction>, a: Address)
    ensures Spent(xs + ys, a) == Spent(xs, a) + Spent(ys, a)
  {
    if ys == [] {
      assert xs + ys == xs;
    } else {
      assert (xs + ys)[..|xs + ys| - 1] == xs + ys[..|ys| - 1];
      SpentConcat(xs, ys[..|ys| - 1], a);
    }
  }

  lemma SpentWithout(l: seq<Transaction>, tx: Transaction, r: seq<Transaction>, a: Address)
    ensures Spent(l + ([tx] + r), a) == Spent(l + r, a) + if tx.sender == a then tx.amount + tx.fee else 0
  {
    assert [tx][..0] == [];
    SpentConcat(l, [tx] + r, a);
    SpentConcat([tx], r, a);
    SpentConcat(l, r, a);
  }

  lemma {:induction false} SpentIgnoresOrder(xs: seq<Transaction>, ys: seq<Transaction>, a: Address)
    requires multiset(xs) == multiset(ys)
    ensures Spent(xs, a) == Spent(ys, a)
    decreases |xs|
  {
    if xs == [] {
      assert |ys| == |multiset(ys)| == 0;
    } else {
      var l, r := TakeOut(xs, ys);
      SpentIgnoresOrder(xs[..|xs| - 1], l + r, a);
      SpentWithout(l, xs[|xs| - 1], r, a);
    }
  }

  /** An account never falls by more than it spends, and only rises when others spend. */
  lemma {:induction false} NetBounds(txs: seq<Transaction>, a: Address)
    ensures Net(txs, a) >= 0 - Spent(txs, a)
    ensures (forall tx :: tx in txs ==> tx.sender != a) ==> Net(txs, a) >= 0
  {
    if txs != [] {
      SplitLast(txs);
      NetBounds(txs[..|txs| - 1], a);
    }
  }

  /** More payments, none of them by a, leave a no poorer. */
  lemma ExtraPaymentsHelp(few: seq<Transaction>, many: seq<Transaction>, a: Address)
    requires multiset(few) <= multiset(many)
    requires forall tx :: tx in multiset(many) - multiset(few) ==> tx.sender != a
    ensures Net(few, a) <= Net(many, a)
  {
    var extra := ListBag(multiset(many) - multiset(few));
    forall tx | tx in extra ensures tx.sender != a {
      assert tx in multiset(extra);
    }
    BooksIgnoreOrder(many, few + extra, a);
    NetConcat(few, extra, a);
    NetBounds(extra, a);
  }

  /** What is paid is closed under ancestors. */
  lemma {:induction false} PaidIsClosed(l: LedgerState, paid: seq<Transaction>, tx: Transaction)
    requires Playable(l, paid) && tx in paid
    ensures ParentsApplied(Ids(paid), tx)
  {
    SplitLast(paid);
    PlayableAppend(l, paid[..|paid| - 1], paid[|paid| - 1]);
    if tx in paid[..|paid| - 1] {
      PaidIsClosed(l, paid[..|paid| - 1], tx);
    }
  }

  lemma AncestorsArePaid(txs: Transactions, l: LedgerState, paid: seq<Transaction>, a: TransactionId, tx: Transaction)
    requires Playable(l, paid) && tx in paid && StrictAncestor(txs, a, tx.id) && a != GENESIS
    requires forall t :: t in paid ==> t.id in txs && txs[t.id] == t
    requires GENESIS !in txs
    ensures a in Ids(paid)
  {
    var s := Ids(paid) + {GENESIS};
    forall v, p | v in s && IsParent(txs, p, v) ensures p in s {
      var t :| t in paid && t.id == v;
      PaidIsClosed(l, paid, t);
    }
    var n: nat :| n >= 1 && Above(txs, n, tx.id, a);
    ClosedUnderParents(txs, s, n, tx.id, a);
  }

  lemma {:induction false} FirstLeft(order: seq<Transaction>, left: seq<Transaction>, k: nat) returns (i: nat)
    requires k < |order| && order[k] in left
    ensures i <= k && order[i] in left && forall j :: 0 <= j < i ==> order[j] !in left
  {
    i := k;
    if j :| 0 <= j < k && order[j] in left {
      i := FirstLeft(order, left, j);
    }
  }

  lemma ExtrasComeLater(order: seq<Transaction>, paid: seq<Transaction>, left: seq<Transaction>, i: nat)
    requires Distinct(order) && multiset(paid) + multiset(left) == multiset(order)
    requires i < |order| && order[i] in left
    requires forall j :: 0 <= j < i ==> order[j] !in left
    ensures multiset(order[..i]) <= multiset(paid) && order[i] !in paid
    ensures forall tx :: tx in multiset(paid) - multiset(order[..i]) ==>
              tx in paid && exists k :: i < k < |order| && order[k] == tx
  {
    assert order == order[..i] + order[i..];
    assert multiset(order) == multiset(order[..i]) + multiset(order[i..]);
    forall tx ensures multiset(order[..i])[tx] <= multiset(paid)[tx] {
      if tx in order[..i] {
        var j :| 0 <= j < i && order[j] == tx;
        assert tx !in left && multiset(left)[tx] == 0;
        assert multiset(order)[tx] == multiset(order[..i])[tx] + multiset(order[i..])[tx];
        assert multiset(order)[tx] == multiset(paid)[tx] + multiset(left)[tx];
      }
    }
    DistinctOnce(order, order[i]);
    assert order[i] in multiset(left);
    forall tx | tx in multiset(paid) - multiset(order[..i])
      ensures tx in paid && exists k :: i < k < |order| && order[k] == tx
    {
      DistinctOnce(order, tx);
      assert tx in multiset(paid) && tx in multiset(order[i..]);
      var k :| 0 <= k < |order[i..]| && order[i..][k] == tx;
      assert order[i + k] == tx;
    }
  }

  /** The first transaction left over could have been paid. */
  lemma FirstLeftIsPayable(txs: Transactions, l: LedgerState, order: seq<Transaction>, paid: seq<Transaction>,
                           left: seq<Transaction>, i: nat)
    requires Ample(l, order) && InsertionOrder(txs, order) && Distinct(order)
    requires Playable(l, order) && Orderly(txs, l, order)
    requires Playable(l, paid) && multiset(paid) + multiset(left) == multiset(order)
    requires i < |order| && order[i] in left
    requires forall j :: 0 <= j < i ==> order[j] !in left
    ensures Payable(l, paid, order[i])
  {
    ExtrasComeLater(order, paid, left, i);
    BagHolds(Played(l, paid, left, true), order);
    ParentsOfFirstLeft(order, paid, i);
    FirstLeftIsCovered(txs, l, order, paid, left, i);
    OnlyBalancesStop(l, order, paid, order[i]);
  }

  lemma ParentsOfFirstLeft(order: seq<Transaction>, paid: seq<Transaction>, i: nat)
    requires Topological(order) && i < |order| && multiset(order[..i]) <= multiset(paid)
    ensures ParentsApplied(Ids(paid), order[i])
  {
    forall p | Earlier(order, i, p) ensures p == GENESIS || p in Ids(paid) {
      if p != GENESIS {
        var j :| 0 <= j < i && order[j].id == p;
        assert order[j] in order[..i];
        assert order[j] in multiset(paid);
      }
    }
    assert Earlier(order, i, order[i].parents.first) && Earlier(order, i, order[i].parents.second);
  }

  lemma {:induction false} PlayablePrefix(l: LedgerState, order: seq<Transaction>, i: nat)
    requires Playable(l, order) && i < |order|
    ensures Playable(l, order[..i]) && Payable(l, order[..i], order[i])
    decreases |order|
  {
    if i < |order| - 1 {
      PlayablePrefix(l, order[..|order| - 1], i);
      assert order[..|order| - 1][..i] == order[..i];
    }
  }

  lemma LaterIsNoAncestor(txs: Transactions, order: seq<Transaction>, i: nat, k: nat)
    requires InsertionOrder(txs, order) && i < k < |order|
    ensures !StrictAncestor(txs, order[k].id, order[i].id)
    ensures order[i] != order[k]
  {
    InsertionOrderDistinct(txs, order);
    if StrictAncestor(txs, order[k].id, order[i].id) {
      var n: nat :| n >= 1 && Above(txs, n, order[i].id, order[k].id);
      PositionDrops(txs, order, n, i, k);
    }
  }

  lemma FirstLeftIsCovered(txs: Transactions, l: LedgerState, order: seq<Transaction>, paid: seq<Transaction>,
                           left: seq<Transaction>, i: nat)
    requires Ample(l, order) && InsertionOrder(txs, order)
    requires Playable(l, order) && Orderly(txs, l, order)
    requires Playable(l, paid) && multiset(paid) + multiset(left) == multiset(order) && Among(paid, order)
    requires i < |order| && order[i] in left && order[i] !in paid
    requires multiset(order[..i]) <= multiset(paid)
    requires forall tx :: tx in multiset(paid) - multiset(order[..i]) ==>
              tx in paid && exists k :: i < k < |order| && order[k] == tx
    ensures order[i].amount + order[i].fee <= Balance(l, order[i].sender) + Net(paid, order[i].sender)
  {
    var a := order[i].sender;
    if Spent(order, a) <= Balance(l, a) {
      var front, back := SplitAt(left, order[i]);
      SpentWithout(front, order[i], back, a);
      SpentIgnoresOrder(order, paid + left, a);
      SpentConcat(paid, left, a);
      NetBounds(paid, a);
    } else {
      forall tx | tx in multiset(paid) - multiset(order[..i]) ensures tx.sender != a {
        var k :| i < k < |order| && order[k] == tx;
        if tx.sender == a {
          LaterIsNoAncestor(txs, order, i, k);
          AncestorsArePaid(txs, l, paid, order[i].id, tx);
        }
      }
      ExtraPaymentsHelp(order[..i], paid, a);
      PlayablePrefix(l, order, i);
      OnlyBalancesStop(l, order, order[..i], order[i]);
    }
  }

  lemma SplitAt<T>(s: seq<T>, x: T) returns (front: seq<T>, back: seq<T>)
    requires x in s
    ensures s == front + ([x] + back)
  {
    var i :| 0 <= i < |s| && s[i] == x;
    front, back := s[..i], s[i + 1..];
  }

  /** When no two payments of one sender race, the replay transfers everything in any order. */
  lemma OrderlyMeansNoDeadEnd(txs: Transactions, l: LedgerState, order: seq<Transaction>)
    requires Ample(l, order) && InsertionOrder(txs, order)
    requires Playable(l, order) && Orderly(txs, l, order)
    ensures NoDeadEnd(l, order) && EveryOrderFinishes(l, order)
  {
    InsertionOrderDistinct(txs, order);
    forall paid, left | Stuck(l, order, paid, left) ensures left == [] {
      if left != [] {
        BagHolds(Played(l, paid, left, true), order);
        assert left[0] in order;
        var k :| 0 <= k < |order| && order[k] == left[0];
        var i := FirstLeft(order, left, k);
        FirstLeftIsPayable(txs, l, order, paid, left, i);
      }
    }
    OrdersMeetDeadEnds(l, order);
  }
}
