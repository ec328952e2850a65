/** The bounded fee-priority queue (src/rpc.rs). */
module MempoolModel {
  import opened Types
  import opened Bags

  datatype MempoolState = MempoolState(queue: seq<Transaction>, maxSize: nat, minFee: u64)

  datatype MempoolError = FeeTooLow(fee: u64, required: u64) | Full

  /** The lowest fee waiting, 0 when nothing waits. */
  function LowestFee(queue: seq<Transaction>): (low: u64)
    ensures forall t :: t in queue ==> low <= t.fee
    ensures queue != [] ==> exists t :: t in queue && t.fee == low
  {
    if queue == [] then 0
    else if |queue| == 1 then queue[0].fee
    else
      var rest := queue[..|queue| - 1];
      assert queue == rest + [queue[|queue| - 1]];
      if queue[|queue| - 1].fee < LowestFee(rest) then queue[|queue| - 1].fee else LowestFee(rest)
  }

  /** The oldest entry with that fee, or the length of the queue. */
  function FirstWithFee(queue: seq<Transaction>, fee: u64): (pos: nat)
    ensures pos <= |queue|
    ensures forall i :: 0 <= i < pos ==> queue[i].fee != fee
    ensures pos < |queue| ==> queue[pos].fee == fee
  {
    if queue == [] then 0
    else if queue[0].fee == fee then 0
    else 1 + FirstWithFee(queue[1..], fee)
  }

  function RemoveAt(queue: seq<Transaction>, pos: nat): seq<Transaction> {
    if pos < |queue| then queue[..pos] + queue[pos + 1..] else queue
  }

  function AddFailure(m: MempoolState, tx: Transaction): Option<MempoolError> {
    if tx.fee < m.minFee then Some(FeeTooLow(tx.fee, m.minFee))
    else if |m.queue| >= m.maxSize && tx.fee <= LowestFee(m.queue) then Some(Full)
    else None
  }

  function Add(m: MempoolState, tx: Transaction): MempoolState {
    if AddFailure(m, tx).Some? then m
    else if |m.queue| >= m.maxSize then
      m.(queue := RemoveAt(m.queue, FirstWithFee(m.queue, LowestFee(m.queue))) + [tx])
    else m.(queue := m.queue + [tx])
  }

  function AddAll(m: MempoolState, offers: seq<Transaction>): MempoolState {
    if offers == [] then m else Add(AddAll(m, offers[..|offers| - 1]), offers[|offers| - 1])
  }

  // ---- the retained fees are the highest offered ones ----

  function Fees(queue: seq<Transaction>): multiset<u64> {
    if queue == [] then multiset{} else Fees(queue[..|queue| - 1]) + multiset{queue[|queue| - 1].fee}
  }

  function Qualifying(offers: seq<Transaction>, minFee: u64): seq<Transaction> {
    if offers == [] then []
    else
      var rest := Qualifying(offers[..|offers| - 1], minFee);
      if offers[|offers| - 1].fee >= minFee then rest + [offers[|offers| - 1]] else rest
  }

  /** kept holds k of the values of all, or every one, and none left out is larger. */
  ghost predicate IsTopK(kept: multiset<u64>, all: multiset<u64>, k: nat) {
    && kept <= all
    && |kept| == (if |all| <= k then |all| else k)
    && forall x, y :: x in kept && y in all - kept ==> y <= x
  }

  /** There is only one such bag. */
  lemma TopKIsUnique(a: multiset<u64>, b: multiset<u64>, all: multiset<u64>, k: nat)
    requires IsTopK(a, all, k) && IsTopK(b, all, k)
    ensures a == b
  {
    if a != b {
      assert a - b != multiset{} && b - a != multiset{} by {
        BagDifference(a, b);
      }
      var x :| x in a - b;
      var y :| y in b - a;
      InDifference(a, b, all, x);
      InDifference(b, a, all, y);
    }
  }

  lemma InDifference(a: multiset<u64>, b: multiset<u64>, all: multiset<u64>, x: u64)
    requires a <= all && b <= all && x in a - b
    ensures x in a && x in all - b
  {
  }

  lemma {:induction false} FeesConcat(a: seq<Transaction>, b: seq<Transaction>)
    ensures Fees(a + b) == Fees(a) + Fees(b)
  {
    if b == [] {
      assert a + b == a;
    } else {
      assert (a + b)[..|a + b| - 1] == a + b[..|b| - 1];
      FeesConcat(a, b[..|b| - 1]);
    }
  }

  lemma FeesOfOne(t: Transaction)
    ensures Fees([t]) == multiset{t.fee}
  {
    assert [t][..0] == [];
  }

  lemma FeesMiddle(l: seq<Transaction>, x: Transaction, r: seq<Transaction>)
    ensures Fees(l + ([x] + r)) == Fees(l) + (multiset{x.fee} + Fees(r))
  {
    FeesConcat(l, [x] + r);
    FeesConcat([x], r);
    FeesOfOne(x);
  }

  lemma FeesRemove(queue: seq<Transaction>, pos: nat)
    requires pos < |queue|
    ensures Fees(queue) == Fees(RemoveAt(queue, pos)) + multiset{queue[pos].fee}
  {
    var l, x, r := queue[..pos], queue[pos], queue[pos + 1..];
    assert queue == l + ([x] + r);
    FeesMiddle(l, x, r);
    FeesConcat(l, r);
    Shuffle(Fees(l), multiset{x.fee}, Fees(r));
  }

  lemma {:induction false} FeesSize(queue: seq<Transaction>)
    ensures |Fees(queue)| == |queue|
    ensures forall f :: f in Fees(queue) ==> exists t :: t in queue && t.fee == f
  {
    if queue != [] {
      FeesSize(queue[..|queue| - 1]);
      assert queue == queue[..|queue| - 1] + [queue[|queue| - 1]];
    }
  }

  /** Swapping the lowest kept value for a larger one keeps the top k. */
  lemma TopKSwap(kept: multiset<u64>, all: multiset<u64>, k: nat, low: u64, fee: u64)
    requires IsTopK(kept, all, k) && |kept| == k && low in kept && low < fee
    requires forall x :: x in kept ==> low <= x
    ensures IsTopK(kept - multiset{low} + multiset{fee}, all + multiset{fee}, k)
  {
    var kept', all' := kept - multiset{low} + multiset{fee}, all + multiset{fee};
    assert kept == (kept - multiset{low}) + multiset{low};
    assert |kept'| == |kept|;
    assert all' - kept' == (all - kept) + multiset{low};
  }

  lemma TopKRoom(kept: multiset<u64>, all: multiset<u64>, k: nat, fee: u64)
    requires IsTopK(kept, all, k) && |kept| < k
    ensures IsTopK(kept + multiset{fee}, all + multiset{fee}, k)
  {
    SameSizeSubBag(kept, all);
  }

  lemma TopKRefuse(kept: multiset<u64>, all: multiset<u64>, k: nat, fee: u64)
    requires IsTopK(kept, all, k) && |kept| == k
    requires forall x :: x in kept ==> fee <= x
    ensures IsTopK(kept, all + multiset{fee}, k)
  {
    assert (all + multiset{fee}) - kept == (all - kept) + multiset{fee};
  }

  lemma NoFeeBelowLowest(queue: seq<Transaction>)
    ensures |Fees(queue)| == |queue|
    ensures forall f :: f in Fees(queue) ==> LowestFee(queue) <= f
  {
    FeesSize(queue);
  }

  lemma TopKStep(m: MempoolState, all: multiset<u64>, tx: Transaction)
    requires m.maxSize >= 1 && tx.fee >= m.minFee
    requires IsTopK(Fees(m.queue), all, m.maxSize)
    ensures IsTopK(Fees(Add(m, tx).queue), all + multiset{tx.fee}, m.maxSize)
  {
    var kept, low, kept' := Fees(m.queue), LowestFee(m.queue), Fees(Add(m, tx).queue);
    NoFeeBelowLowest(m.queue);
    if |m.queue| < m.maxSize {
      assert kept' == kept + multiset{tx.fee} by {
        FeesConcat(m.queue, [tx]);
        FeesOfOne(tx);
      }
      TopKRoom(kept, all, m.maxSize, tx.fee);
    } else if tx.fee <= low {
      assert kept' == kept;
      TopKRefuse(kept, all, m.maxSize, tx.fee);
    } else {
      EvictionFees(m.queue, tx);
      assert kept' == kept - multiset{low} + multiset{tx.fee};
      TopKSwap(kept, all, m.maxSize, low, tx.fee);
    }
  }

  lemma EvictionFees(queue: seq<Transaction>, tx: Transaction)
    requires queue != []
    ensures LowestFee(queue) in Fees(queue)
    ensures var rest := RemoveAt(queue, FirstWithFee(queue, LowestFee(queue)));
            Fees(rest + [tx]) == Fees(queue) - multiset{LowestFee(queue)} + multiset{tx.fee}
  {
    var pos := FirstWithFee(queue, LowestFee(queue));
    FeesRemove(queue, pos);
    FeesConcat(RemoveAt(queue, pos), [tx]);
    FeesOfOne(tx);
  }

  /** After any offers the pool holds exactly the highest qualifying fees. */
  lemma {:induction false} MempoolKeepsTheHighestFees(m: MempoolState, offers: seq<Transaction>)
    requires m.maxSize >= 1 && m.queue == []
    ensures var m' := AddAll(m, offers);
            && m'.maxSize == m.maxSize && m'.minFee == m.minFee
            && IsTopK(Fees(m'.queue), Fees(Qualifying(offers, m.minFee)), m.maxSize)
  {
    if offers != [] {
      var before, tx := offers[..|offers| - 1], offers[|offers| - 1];
      MempoolKeepsTheHighestFees(m, before);
      if tx.fee >= m.minFee {
        var rest := Qualifying(before, m.minFee);
        TopKStep(AddAll(m, before), Fees(rest), tx);
        FeesConcat(rest, [tx]);
        FeesOfOne(tx);
      }
    }
  }

  // ---- survivors keep their order ----

  predicate Subsequence(a: seq<Transaction>, b: seq<Transaction>) {
    if a == [] then true
    else if b == [] then false
    else
      || Subsequence(a, b[..|b| - 1])
      || (a[|a| - 1] == b[|b| - 1] && Subsequence(a[..|a| - 1], b[..|b| - 1]))
  }

  lemma {:induction false} SubsequenceRemove(a: seq<Transaction>, b: seq<Transaction>, pos: nat)
    requires Subsequence(a, b) && pos < |a|
    ensures Subsequence(RemoveAt(a, pos), b)
    decreases |b|
  {
    var rest := b[..|b| - 1];
    if Subsequence(a, rest) {
      SubsequenceRemove(a, rest, pos);
    } else if pos < |a| - 1 {
      SubsequenceRemove(a[..|a| - 1], rest, pos);
      var removed := RemoveAt(a, pos);
      assert removed[..|removed| - 1] == RemoveAt(a[..|a| - 1], pos);
    } else {
      assert RemoveAt(a, pos) == a[..|a| - 1];
    }
  }

  lemma SubsequenceAppend(a: seq<Transaction>, b: seq<Transaction>, t: Transaction)
    requires Subsequence(a, b)
    ensures Subsequence(a + [t], b + [t]) && Subsequence(a, b + [t])
  {
    assert (a + [t])[..|a|] == a && (b + [t])[..|b|] == b;
  }

  lemma {:induction false} SurvivorsKeepArrivalOrder(m: MempoolState, offers: seq<Transaction>)
    requires m.queue == []
    ensures Subsequence(AddAll(m, offers).queue, offers)
  {
    if offers != [] {
      var before, tx := offers[..|offers| - 1], offers[|offers| - 1];
      var pool := AddAll(m, before);
      SurvivorsKeepArrivalOrder(m, before);
      assert offers == before + [tx];
      SubsequenceAppend(pool.queue, before, tx);
      var pos := FirstWithFee(pool.queue, LowestFee(pool.queue));
      if pos < |pool.queue| {
        SubsequenceRemove(pool.queue, before, pos);
        SubsequenceAppend(RemoveAt(pool.queue, pos), before, tx);
      }
    }
  }

  /** A pool of capacity 0 is not empty for long. */
  lemma ZeroCapacityStillHoldsOne(m: MempoolState, tx: Transaction)
    requires m.maxSize == 0 && m.queue == [] && tx.fee >= m.minFee
    ensures |Add(m, tx).queue| <= m.maxSize <==> tx.fee == 0
  {
  }

  class Mempool {
    var queue: seq<Transaction>
    const maxSize: nat
    var minFee: u64

    ghost function State(): MempoolState
      reads this
    {
      MempoolState(queue, maxSize, minFee)
    }

    constructor (maxSize: nat)
      ensures State() == MempoolState([], maxSize, 1)
    {
      this.queue, this.maxSize, this.minFee := [], maxSize, 1;
    }

    method SetMinFee(fee: u64)
      modifies this`minFee
      ensures minFee == fee
    {
      minFee := fee;
    }

    method AddInternal(tx: Transaction) returns (r: Result<Unit, MempoolError>)
      modifies this`queue
      ensures State() == Add(old(State()), tx)
      ensures r == (match AddFailure(old(State()), tx) case Some(e) => Err(e) case None => Ok(Unit))
    {
      if tx.fee < minFee {
        return Err(FeeTooLow(tx.fee, minFee));
      }
      if |queue| >= maxSize {
        var low := FindLowestFee();
        if tx.fee > low {
          var pos := FindFee(low);
          if pos < |queue| {
            queue := queue[..pos] + queue[pos + 1..];
          }
        } else {
          return Err(Full);
        }
      }
      queue := queue + [tx];
      return Ok(Unit);
    }

    method FindLowestFee() returns (low: u64)
      ensures low == LowestFee(queue)
    {
      if queue == [] {
        return 0;
      }
      low := queue[0].fee;
      for i := 1 to |queue|
        invariant low == LowestFee(queue[..i])
      {
        assert queue[..i + 1][..i] == queue[..i];
        if queue[i].fee < low {
          low := queue[i].fee;
        }
      }
      assert queue[..|queue|] == queue;
    }

    method FindFee(fee: u64) returns (pos: nat)
      ensures pos == FirstWithFee(queue, fee)
    {
      pos := 0;
      while pos < |queue| && queue[pos].fee != fee
        invariant pos <= |queue|
        invariant FirstWithFee(queue, fee) == pos + FirstWithFee(queue[pos..], fee)
      {
        assert queue[pos..][1..] == queue[pos + 1..];
        pos := pos + 1;
      }
    }

    method PopFront() returns (tx: Option<Transaction>)
      modifies this`queue
      ensures old(queue) == [] ==> tx.None? && queue == []
      ensures old(queue) != [] ==> tx == Some(old(queue)[0]) && queue == old(queue)[1..]
    {
      if queue == [] {
        return None;
      }
      tx := Some(queue[0]);
      queue := queue[1..];
    }
  }
}
