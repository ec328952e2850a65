/** Rebuilding the balances by replaying the DAG in hash-map order (src/node.rs). */
module Replaying {
  import opened Types
  import opened Bags
  import opened Sums
  import opened LedgerModel

  const GENESIS_BALANCES: map<Address, u64> :=
    map[FOUNDER_ADDRESS := 100_000_000_000, FAUCET_ADDRESS := 10_000_000_000_000_000_000]

  const GENESIS_TOTAL: nat := 10_000_000_100_000_000_000

  const GENESIS_LEDGER := LedgerState(GENESIS_BALANCES, map[], 0, 0)

  /** moved lists the transactions transferred so far, in the order of their transfer. */
  datatype Replay = Replay(
    ledger: LedgerState,
    applied: set<TransactionId>,
    moved: seq<Transaction>,
    pending: seq<Transaction>,
    progress: bool)

  predicate ParentsApplied(applied: set<TransactionId>, tx: Transaction) {
    && (tx.parents.first == GENESIS || tx.parents.first in applied)
    && (tx.parents.second == GENESIS || tx.parents.second in applied)
  }

  function RaiseNonce(l: LedgerState, tx: Transaction): LedgerState {
    if tx.accountNonce > Nonce(l, tx.sender) then l.(nonces := l.nonces[tx.sender := tx.accountNonce]) else l
  }

  function TransferOf(l: LedgerState, tx: Transaction): LedgerState {
    RaiseNonce(Transfer(l, tx.sender, tx.receiver, tx.amount, tx.fee), tx)
  }

  /** One transaction: not ready and short of balance wait, hard errors are skipped for good. */
  function Try(r: Replay, tx: Transaction): Replay {
    if !ParentsApplied(r.applied, tx) then r.(pending := r.pending + [tx])
    else
      match TransferError(r.ledger, tx.sender, tx.receiver, tx.amount, tx.fee)
      case None =>
        r.(ledger := TransferOf(r.ledger, tx), applied := r.applied + {tx.id}, moved := r.moved + [tx], progress := true)
      case Some(InsufficientBalance(_, _)) => r.(pending := r.pending + [tx])
      case Some(_) => r.(applied := r.applied + {tx.id})
  }

  function RunPass(r: Replay, todo: seq<Transaction>): (p: Replay)
    ensures |p.pending| <= |r.pending| + |todo|
    ensures p.progress && !r.progress ==> |p.pending| < |r.pending| + |todo|
  {
    if todo == [] then r
    else Try(RunPass(r, todo[..|todo| - 1]), todo[|todo| - 1])
  }

  function Restart(r: Replay): Replay {
    r.(pending := [], progress := false)
  }

  /** Passes until one of them transfers nothing. */
  function RunAll(r: Replay): Replay
    decreases |r.pending|, r.progress
  {
    if !r.progress || r.pending == [] then r
    else RunAll(RunPass(Restart(r), r.pending))
  }

  function ReplayFrom(l: LedgerState, all: seq<Transaction>): Replay {
    RunAll(Replay(l, {}, [], all, true))
  }

  /** The counters as recomputed afterwards; Rust's u64 sum wraps in a release build. */
  ghost function Recount(l: LedgerState): LedgerState {
    l.(totalFeesBurned := Balance(l, FEE_BURN_ADDRESS),
       totalSupply := (Total(l) - Balance(l, FEE_BURN_ADDRESS)) % (U64_MAX + 1))
  }

  // ---- accounts after a set of transfers ----

  /** What the transfers add to one account. */
  function Net(moved: seq<Transaction>, a: Address): int {
    if moved == [] then 0 else Net(moved[..|moved| - 1], a) + Effect(moved[|moved| - 1], a)
  }

  function Effect(tx: Transaction, a: Address): int {
    0 - (if a == tx.sender then tx.amount + tx.fee else 0)
      + (if a == tx.receiver then tx.amount else 0)
      + (if a == FEE_BURN_ADDRESS then tx.fee else 0)
  }

  function HighestNonce(moved: seq<Transaction>, a: Address): u64 {
    if moved == [] then 0
    else
      var before, tx := HighestNonce(moved[..|moved| - 1], a), moved[|moved| - 1];
      if tx.sender == a && tx.accountNonce > before then tx.accountNonce else before
  }

  predicate OrdinaryParties(txs: seq<Transaction>) {
    forall tx :: tx in txs ==> tx.sender != FEE_BURN_ADDRESS && tx.receiver != FEE_BURN_ADDRESS
  }

  ghost predicate Booked(l: LedgerState, r: Replay) {
    && Total(r.ledger) == Total(l)
    && (forall a :: Balance(r.ledger, a) == Balance(l, a) + Net(r.moved, a))
    && (forall a :: Nonce(r.ledger, a) == HighestNonce(r.moved, a))
  }

  /** Whatever was transferred or waits comes from the list. */
  ghost predicate Drawn(r: Replay, all: seq<Transaction>) {
    && (forall tx :: tx in r.moved ==> tx in all)
    && (forall tx :: tx in r.pending ==> tx in all)
  }

  lemma TryKeepsBooks(l: LedgerState, r: Replay, tx: Transaction)
    requires Booked(l, r) && tx.sender != FEE_BURN_ADDRESS && tx.receiver != FEE_BURN_ADDRESS
    ensures Booked(l, Try(r, tx))
  {
    if ParentsApplied(r.applied, tx) && TransferError(r.ledger, tx.sender, tx.receiver, tx.amount, tx.fee).None? {
      var r' := Try(r, tx);
      assert r'.moved[..|r'.moved| - 1] == r.moved;
      TransferTotal(r.ledger, tx.sender, tx.receiver, tx.amount, tx.fee);
      forall a ensures Balance(r'.ledger, a) == Balance(l, a) + Net(r'.moved, a) {
        TransferMovesMoney(r.ledger, tx.sender, tx.receiver, tx.amount, tx.fee, a);
        assert Balance(r.ledger, a) == Balance(l, a) + Net(r.moved, a);
      }
      forall a ensures Nonce(r'.ledger, a) == HighestNonce(r'.moved, a) {
        assert Nonce(r.ledger, a) == HighestNonce(r.moved, a);
      }
    }
  }

  lemma {:induction false} PassKeepsBooks(l: LedgerState, r: Replay, todo: seq<Transaction>, all: seq<Transaction>)
    requires Booked(l, r) && Drawn(r, all) && OrdinaryParties(all)
    requires forall tx :: tx in todo ==> tx in all
    ensures Booked(l, RunPass(r, todo)) && Drawn(RunPass(r, todo), all)
  {
    if todo != [] {
      var init, tx := todo[..|todo| - 1], todo[|todo| - 1];
      assert todo == init + [tx];
      PassKeepsBooks(l, r, init, all);
      TryKeepsBooks(l, RunPass(r, init), tx);
    }
  }

  lemma {:induction false} RunKeepsBooks(l: LedgerState, r: Replay, all: seq<Transaction>)
    requires Booked(l, r) && Drawn(r, all) && OrdinaryParties(all)
    ensures Booked(l, RunAll(r)) && Drawn(RunAll(r), all)
    decreases |r.pending|, r.progress
  {
    if r.progress && r.pending != [] {
      PassKeepsBooks(l, Restart(r), r.pending, all);
      RunKeepsBooks(l, RunPass(Restart(r), r.pending), all);
    }
  }

  /** Whatever the order, each account ends at its start plus what was moved for it. */
  lemma ReplayBooks(l: LedgerState, all: seq<Transaction>)
    requires l.nonces == map[] && OrdinaryParties(all)
    ensures Booked(l, ReplayFrom(l, all))
    ensures forall tx :: tx in ReplayFrom(l, all).moved ==> tx in all
  {
    RunKeepsBooks(l, Replay(l, {}, [], all, true), all);
  }

  // ---- conservation ----

  /** The replay always ends with supply plus burned fees equal to the genesis sum. */
  lemma ReplayConservesGenesis(all: seq<Transaction>)
    requires OrdinaryParties(all)
    ensures var l := Recount(ReplayFrom(GENESIS_LEDGER, all).ledger);
            l.totalSupply + l.totalFeesBurned == GENESIS_TOTAL
  {
    ReplayBooks(GENESIS_LEDGER, all);
    GenesisTotal();
    var l := ReplayFrom(GENESIS_LEDGER, all).ledger;
    SumAtLeastTwo(l.balances, FEE_BURN_ADDRESS, FAUCET_ADDRESS);
  }

  lemma GenesisTotal()
    ensures Total(GENESIS_LEDGER) == GENESIS_TOTAL
  {
    var founder: map<Address, int> := map[][FOUNDER_ADDRESS := 100_000_000_000];
    SumUpdate(map[], FOUNDER_ADDRESS, 100_000_000_000);
    SumUpdate(founder, FAUCET_ADDRESS, 10_000_000_000_000_000_000);
    assert GENESIS_BALANCES == founder[FAUCET_ADDRESS := 10_000_000_000_000_000_000];
  }

  // ---- what is left over ----

  /** Both parents are genesis or were transferred. */
  ghost predicate ParentsMoved(moved: seq<Transaction>, tx: Transaction) {
    && (tx.parents.first == GENESIS || exists t :: t in moved && t.id == tx.parents.first)
    && (tx.parents.second == GENESIS || exists t :: t in moved && t.id == tx.parents.second)
  }

  predicate ShortOfBalance(l: LedgerState, tx: Transaction) {
    tx.amount + tx.fee <= U64_MAX && Balance(l, tx.sender) < tx.amount + tx.fee
  }

  /** Each of these was transferred, waits, or has been skipped for good. */
  ghost predicate Handled(r: Replay, txs: seq<Transaction>) {
    forall tx :: tx in txs ==> tx in r.moved || tx in r.pending || tx.id in r.applied
  }

  /** What was transferred counts as applied, and so do its parents. */
  ghost predicate MovedAreApplied(r: Replay) {
    forall tx :: tx in r.moved ==>
      && tx.id in r.applied
      && (tx.parents.first == GENESIS || tx.parents.first in r.applied)
      && (tx.parents.second == GENESIS || tx.parents.second in r.applied)
  }

  /** Only ids from the list do. */
  ghost predicate AppliedFrom(r: Replay, all: seq<Transaction>) {
    forall id :: id in r.applied ==> exists tx :: tx in all && tx.id == id
  }

  lemma {:induction false} PassAppliesListed(r: Replay, todo: seq<Transaction>, all: seq<Transaction>)
    requires AppliedFrom(r, all) && Drawn(r, all) && forall tx :: tx in todo ==> tx in all
    ensures AppliedFrom(RunPass(r, todo), all) && Drawn(RunPass(r, todo), all)
  {
    if todo != [] {
      SplitLast(todo);
      PassAppliesListed(r, todo[..|todo| - 1], all);
    }
  }

  /** Nothing that was handled is forgotten within a pass. */
  ghost predicate Carries(r: Replay, p: Replay) {
    && (forall tx :: tx in r.moved ==> tx in p.moved) && (forall tx :: tx in r.pending ==> tx in p.pending)
    && r.applied <= p.applied
  }

  lemma {:induction false} PassHandles(r: Replay, todo: seq<Transaction>)
    requires MovedAreApplied(r)
    ensures MovedAreApplied(RunPass(r, todo)) && Carries(r, RunPass(r, todo)) && Handled(RunPass(r, todo), todo)
  {
    if todo != [] {
      SplitLast(todo);
      PassHandles(r, todo[..|todo| - 1]);
    }
  }

  /** What waits has a parent that was not transferred, or its sender is short of balance. */
  ghost predicate Unpayable(r: Replay) {
    forall tx :: tx in r.pending ==> !ParentsMoved(r.moved, tx) || ShortOfBalance(r.ledger, tx)
  }

  /** A pass that transfers nothing has found every waiting transaction unpayable. */
  lemma {:induction false} IdlePass(r: Replay, todo: seq<Transaction>)
    requires MovedAreApplied(r) && r.pending == [] && !r.progress
    ensures var p := RunPass(r, todo);
            !p.progress ==> p.moved == r.moved && p.ledger == r.ledger && r.applied <= p.applied && Unpayable(p)
  {
    if todo != [] {
      IdlePass(r, todo[..|todo| - 1]);
    }
  }

  lemma {:induction false} RunSettles(r: Replay, all: seq<Transaction>)
    requires MovedAreApplied(r) && Handled(r, all) && (!r.progress ==> Unpayable(r))
    requires AppliedFrom(r, all) && Drawn(r, all)
    ensures MovedAreApplied(RunAll(r)) && Handled(RunAll(r), all) && Unpayable(RunAll(r)) && AppliedFrom(RunAll(r), all)
    decreases |r.pending|, r.progress
  {
    if r.progress && r.pending != [] {
      PassHandles(Restart(r), r.pending);
      PassAppliesListed(Restart(r), r.pending, all);
      IdlePass(Restart(r), r.pending);
      RunSettles(RunPass(Restart(r), r.pending), all);
    }
  }

  /** Whatever the list and the order, overflows included: each transaction was transferred, waits, or was skipped for
    * good; the parents of what was transferred are genesis or transactions of the list that were transferred or skipped;
    * and what waits at the end has a parent that was not transferred or a sender short of balance. */
  lemma ReplayHandlesEverything(l: LedgerState, all: seq<Transaction>)
    ensures var r := ReplayFrom(l, all); Handled(r, all) && MovedAreApplied(r) && AppliedFrom(r, all) && Unpayable(r)
  {
    RunSettles(Replay(l, {}, [], all, true), all);
  }

  // ---- order ----

  lemma {:induction false} NetConcat(xs: seq<Transaction>, ys: seq<Transaction>, a: Address)
    ensures Net(xs + ys, a) == Net(xs, a) + Net(ys, a)
  {
    if ys == [] {
      assert xs + ys == xs;
    } else {
      assert (xs + ys)[..|xs + ys| - 1] == xs + ys[..|ys| - 1];
      NetConcat(xs, ys[..|ys| - 1], a);
    }
  }

  lemma {:induction false} HighestConcat(xs: seq<Transaction>, ys: seq<Transaction>, a: Address)
    ensures HighestNonce(xs + ys, a) == if HighestNonce(xs, a) < HighestNonce(ys, a) then HighestNonce(ys, a) else HighestNonce(xs, a)
  {
    if ys == [] {
      assert xs + ys == xs;
    } else {
      assert (xs + ys)[..|xs + ys| - 1] == xs + ys[..|ys| - 1];
      HighestConcat(xs, ys[..|ys| - 1], a);
    }
  }

  lemma NetWithout(l: seq<Transaction>, tx: Transaction, r: seq<Transaction>, a: Address)
    ensures Net(l + ([tx] + r), a) == Net(l + r, a) + Effect(tx, a)
  {
    assert [tx][..0] == [];
    NetConcat(l, [tx] + r, a);
    NetConcat([tx], r, a);
    NetConcat(l, r, a);
  }

  lemma HighestWithout(l: seq<Transaction>, tx: Transaction, r: seq<Transaction>, a: Address)
    ensures HighestNonce(l + ([tx] + r), a) == HighestNonce(l + r + [tx], a)
  {
    HighestConcat(l, [tx] + r, a);
    HighestConcat([tx], r, a);
    HighestConcat(l + r, [tx], a);
    HighestConcat(l, r, a);
  }

  /** Money and nonces depend on which transfers were made, not on their order. */
  lemma {:induction false} BooksIgnoreOrder(xs: seq<Transaction>, ys: seq<Transaction>, a: Address)
    requires multiset(xs) == multiset(ys)
    ensures Net(xs, a) == Net(ys, a) && HighestNonce(xs, a) == HighestNonce(ys, a)
    decreases |xs|
  {
    if xs == [] {
      assert |ys| == |multiset(ys)| == 0;
    } else {
      var init, last := xs[..|xs| - 1], xs[|xs| - 1];
      var l, r := TakeOut(xs, ys);
      BooksIgnoreOrder(init, l + r, a);
      NetWithout(l, last, r, a);
      HighestWithout(l, last, r, a);
      assert (l + r + [last])[..|l + r|] == l + r;
    }
  }

  /** Two replays that transfer the same transactions end in the same accounts and counters;
    * in particular any two replays that each apply everything. */
  lemma ReplayIsOrderFree(l: LedgerState, xs: seq<Transaction>, ys: seq<Transaction>)
    requires l.nonces == map[] && OrdinaryParties(xs) && OrdinaryParties(ys)
    requires multiset(ReplayFrom(l, xs).moved) == multiset(ReplayFrom(l, ys).moved)
    ensures var x, y := ReplayFrom(l, xs).ledger, ReplayFrom(l, ys).ledger;
            && Total(x) == Total(y)
            && forall a :: Balance(x, a) == Balance(y, a) && Nonce(x, a) == Nonce(y, a)
  {
    ReplayBooks(l, xs);
    ReplayBooks(l, ys);
    var x, y := ReplayFrom(l, xs), ReplayFrom(l, ys);
    forall a ensures Balance(x.ledger, a) == Balance(y.ledger, a) && Nonce(x.ledger, a) == Nonce(y.ledger, a) {
      BooksIgnoreOrder(x.moved, y.moved, a);
    }
  }

  /** The founder pays all it has to y, y pays it back, the founder pays it to w. */
  predicate RoundAndOut(pay: Transaction, back: Transaction, again: Transaction, y: Address, w: Address) {
    && pay.parents == back.parents == again.parents == Parents(GENESIS, GENESIS)
    && y !in {FOUNDER_ADDRESS, FAUCET_ADDRESS, FEE_BURN_ADDRESS, w}
    && w !in {FOUNDER_ADDRESS, FAUCET_ADDRESS, FEE_BURN_ADDRESS}
    && pay.sender == again.sender == back.receiver == FOUNDER_ADDRESS
    && pay.receiver == back.sender == y && again.receiver == w
    && pay.fee == back.fee == again.fee == 1
    && pay.amount == 99_999_999_999 && back.amount == 99_999_999_998 && again.amount == 99_999_999_997
  }

  /** A replay that applies everything leaves exactly the accounts the DAG adds up to. */
  lemma FullReplayAddsUpTheDag(l: LedgerState, all: seq<Transaction>, a: Address)
    requires l.nonces == map[] && OrdinaryParties(all)
    requires multiset(ReplayFrom(l, all).moved) == multiset(all)
    ensures Balance(ReplayFrom(l, all).ledger, a) == Balance(l, a) + Net(all, a)
    ensures Nonce(ReplayFrom(l, all).ledger, a) == HighestNonce(all, a)
  {
    ReplayBooks(l, all);
    BooksIgnoreOrder(ReplayFrom(l, all).moved, all, a);
  }

  /** Nonces are not checked here, so a later payment may overtake an earlier one and starve it:
    * three root payments that replay fully in one order and lose two of them in another. */
  lemma OrderCanStarvePayments(pay: Transaction, back: Transaction, again: Transaction, y: Address, w: Address)
    requires RoundAndOut(pay, back, again, y, w)
    ensures ReplayFrom(GENESIS_LEDGER, [pay, back, again]).moved == [pay, back, again]
    ensures ReplayFrom(GENESIS_LEDGER, [again, pay, back]).moved == [again]
    ensures ReplayFrom(GENESIS_LEDGER, [again, pay, back]).pending == [pay, back]
  {
    InOrder(pay, back, again, y, w);
    OutOfOrder(pay, back, again, y, w);
  }

  lemma ThreeTries(r: Replay, a: Transaction, b: Transaction, c: Transaction)
    ensures RunPass(r, [a, b, c]) == Try(Try(Try(r, a), b), c)
  {
    assert [a, b, c][..2] == [a, b] && [a, b][..1] == [a] && [a][..0] == [];
    assert RunPass(r, []) == r;
    assert RunPass(r, [a]) == Try(r, a);
    assert RunPass(r, [a, b]) == Try(Try(r, a), b);
  }

  lemma InOrder(pay: Transaction, back: Transaction, again: Transaction, y: Address, w: Address)
    requires RoundAndOut(pay, back, again, y, w)
    ensures ReplayFrom(GENESIS_LEDGER, [pay, back, again]).moved == [pay, back, again]
  {
    var r0 := Replay(GENESIS_LEDGER, {}, [], [], false);
    var r1 := Try(r0, pay);
    assert r1.moved == [pay] && r1.pending == [];
    assert Balance(r1.ledger, y) == 99_999_999_999 && Balance(r1.ledger, FOUNDER_ADDRESS) == 0
           && Balance(r1.ledger, FEE_BURN_ADDRESS) == 1 && r1.ledger.totalFeesBurned == 1;
    var r2 := Try(r1, back);
    assert r2.moved == [pay, back] && r2.pending == [];
    assert Balance(r2.ledger, FOUNDER_ADDRESS) == 99_999_999_998 && Balance(r2.ledger, w) == 0
           && Balance(r2.ledger, FEE_BURN_ADDRESS) == 2 && r2.ledger.totalFeesBurned == 2;
    var r3 := Try(r2, again);
    assert r3.moved == [pay, back, again] && r3.pending == [];
    ThreeTries(r0, pay, back, again);
    var start := Replay(GENESIS_LEDGER, {}, [], [pay, back, again], true);
    assert Restart(start) == r0;
    assert RunAll(start) == RunAll(r3);
  }

  lemma OutOfOrder(pay: Transaction, back: Transaction, again: Transaction, y: Address, w: Address)
    requires RoundAndOut(pay, back, again, y, w)
    ensures ReplayFrom(GENESIS_LEDGER, [again, pay, back]).moved == [again]
    ensures ReplayFrom(GENESIS_LEDGER, [again, pay, back]).pending == [pay, back]
  {
    var r0 := Replay(GENESIS_LEDGER, {}, [], [], false);
    var r1 := Try(r0, again);
    assert r1.moved == [again] && r1.pending == [];
    assert Balance(r1.ledger, FOUNDER_ADDRESS) == 2 && Balance(r1.ledger, y) == 0;
    var r2 := Try(r1, pay);
    assert r2 == r1.(pending := [pay]);
    var r3 := Try(r2, back);
    assert r3 == r1.(pending := [pay, back]);
    ThreeTries(r0, again, pay, back);
    var start := Replay(GENESIS_LEDGER, {}, [], [again, pay, back], true);
    assert Restart(start) == r0;
    assert RunAll(start) == RunAll(r3);
    // second pass: nothing changes
    var s0 := Restart(r3);
    assert Try(s0, pay) == s0.(pending := [pay]);
    assert Try(Try(s0, pay), back) == s0.(pending := [pay, back]);
    assert [pay, back][..1] == [pay] && [pay][..0] == [];
    assert RunPass(s0, []) == s0;
    assert RunPass(s0, [pay]) == Try(s0, pay);
    assert RunPass(s0, [pay, back]) == s0.(pending := [pay, back]);
    assert RunAll(r3) == RunAll(s0.(pending := [pay, back]));
  }

  // ---- the loop ----

  method ReplayLedger(ledger: Ledger, all: seq<Transaction>)
    modifies ledger
    ensures ledger.State() == Recount(ReplayFrom(GENESIS_LEDGER, all).ledger)
  {
    ResetToGenesis(ledger);
    ghost var moved: seq<Transaction> := [];
    var applied: set<TransactionId> := {};
    var pending := all;
    var progress := true;
    while progress && pending != []
      invariant ReplayFrom(GENESIS_LEDGER, all) == RunAll(Replay(ledger.State(), applied, moved, pending, progress))
      decreases |pending|, progress
    {
      applied, moved, pending, progress := ReplayPass(ledger, applied, moved, pending);
    }
    UnburnedTotal(ledger.State());
    var unburned := SumBalances(ledger.balances - {FEE_BURN_ADDRESS});
    ledger.totalFeesBurned := GetOr(ledger.balances, FEE_BURN_ADDRESS, 0);
    ledger.totalSupply := unburned % (U64_MAX + 1);
  }

  method ResetToGenesis(ledger: Ledger)
    modifies ledger
    ensures ledger.State() == GENESIS_LEDGER
  {
    ledger.balances, ledger.nonces := map[], map[];
    ledger.totalFeesBurned, ledger.totalSupply := 0, 0;
    ledger.balances := ledger.balances[FOUNDER_ADDRESS := 100_000_000_000];
    ledger.balances := ledger.balances[FAUCET_ADDRESS := 10_000_000_000_000_000_000];
  }

  /** One pass over the pending transactions. */
  method ReplayPass(ledger: Ledger, applied0: set<TransactionId>, ghost moved0: seq<Transaction>, pending: seq<Transaction>)
    returns (applied: set<TransactionId>, ghost moved: seq<Transaction>, stillPending: seq<Transaction>, progress: bool)
    modifies ledger
    ensures Replay(ledger.State(), applied, moved, stillPending, progress)
         == RunPass(Replay(old(ledger.State()), applied0, moved0, [], false), pending)
  {
    applied, moved, stillPending, progress := applied0, moved0, [], false;
    ghost var start := Replay(ledger.State(), applied, moved, [], false);
    for i := 0 to |pending|
      invariant RunPass(start, pending[..i]) == Replay(ledger.State(), applied, moved, stillPending, progress)
    {
      var tx := pending[i];
      assert pending[..i + 1][..i] == pending[..i];
      if !ParentsApplied(applied, tx) {
        stillPending := stillPending + [tx];
      } else {
        var failure := ReplayTransfer(ledger, tx);
        if failure.None? {
          applied := applied + {tx.id};
          moved := moved + [tx];
          progress := true;
        } else if failure.value.InsufficientBalance? {
          stillPending := stillPending + [tx];
        } else {
          applied := applied + {tx.id};
        }
      }
    }
    assert pending[..|pending|] == pending;
  }

  method ReplayTransfer(ledger: Ledger, tx: Transaction) returns (failure: Option<LedgerError>)
    modifies ledger
    ensures failure == TransferError(old(ledger.State()), tx.sender, tx.receiver, tx.amount, tx.fee)
    ensures ledger.State() == if failure.None? then TransferOf(old(ledger.State()), tx) else old(ledger.State())
  {
    var result := ledger.TransferInternal(tx.sender, tx.receiver, tx.amount, tx.fee);
    if result.Err? {
      return Some(result.error);
    }
    var current := GetOr(ledger.nonces, tx.sender, 0);
    if tx.accountNonce > current {
      ledger.nonces := ledger.nonces[tx.sender := tx.accountNonce];
    }
    return None;
  }

  lemma UnburnedTotal(l: LedgerState)
    ensures MapSum(l.balances - {FEE_BURN_ADDRESS}) == Total(l) - Balance(l, FEE_BURN_ADDRESS)
  {
    if FEE_BURN_ADDRESS in l.balances {
      SumRemove(l.balances, FEE_BURN_ADDRESS);
    } else {
      assert l.balances - {FEE_BURN_ADDRESS} == l.balances;
    }
  }

  method SumBalances(balances: map<Address, u64>) returns (total: nat)
    ensures total == MapSum(balances)
  {
    total := 0;
    var rest := balances;
    while rest != map[]
      invariant total + MapSum(rest) == MapSum(balances)
      decreases |rest.Keys|
    {
      var a :| a in rest;
      SumRemove(rest, a);
      total := total + rest[a];
      ghost var before := rest;
      rest := rest - {a};
      assert rest.Keys == before.Keys - {a};
    }
  }
}
