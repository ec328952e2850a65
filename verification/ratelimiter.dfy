/** The fixed-window rate limiter (src/rpc.rs). */
module RateLimiting {
  import opened Types

  const NANOS_PER_SEC: nat := 1_000_000_000

  datatype Bucket = Bucket(count: nat, start: nat)

  datatype Limits = Limits(maxRequests: nat, windowSecs: nat)

  /** A call with the clock reading, in nanoseconds, that it saw. */
  datatype Request = Request(key: string, now: nat)

  datatype Verdict = Verdict(buckets: map<string, Bucket>, answer: Result<Unit, nat>)

  /** Whole seconds since start. */
  function ElapsedSecs(now: nat, start: nat): nat {
    if now < start then 0 else (now - start) / NANOS_PER_SEC
  }

  /** The bucket a request is counted in: the stored one, or a new one when it has run out. */
  function CurrentBucket(l: Limits, buckets: map<string, Bucket>, q: Request): Bucket {
    var entry := GetOr(buckets, q.key, Bucket(0, q.now));
    if ElapsedSecs(q.now, entry.start) >= l.windowSecs then Bucket(0, q.now) else entry
  }

  function Check(l: Limits, buckets: map<string, Bucket>, q: Request): Verdict {
    var b := CurrentBucket(l, buckets, q);
    if b.count >= l.maxRequests then
      var elapsed := ElapsedSecs(q.now, b.start);
      Verdict(buckets[q.key := b], Err(if l.windowSecs < elapsed then 0 else l.windowSecs - elapsed))
    else Verdict(buckets[q.key := b.(count := b.count + 1)], Ok(Unit))
  }

  function CheckAll(l: Limits, qs: seq<Request>): map<string, Bucket> {
    if qs == [] then map[]
    else Check(l, CheckAll(l, qs[..|qs| - 1]), qs[|qs| - 1]).buckets
  }

  /** Whether the last request of the run is let through. */
  predicate LastAdmitted(l: Limits, qs: seq<Request>)
    requires qs != []
  {
    Check(l, CheckAll(l, qs[..|qs| - 1]), qs[|qs| - 1]).answer.Ok?
  }

  /** The requests of a key let through at t or later, before t plus one window. */
  function AdmittedWithin(l: Limits, qs: seq<Request>, key: string, t: nat): nat {
    if qs == [] then 0
    else
      var q := qs[|qs| - 1];
      AdmittedWithin(l, qs[..|qs| - 1], key, t)
      + if q.key == key && t <= q.now < t + l.windowSecs * NANOS_PER_SEC && LastAdmitted(l, qs) then 1 else 0
  }

  ghost predicate ClockRuns(qs: seq<Request>) {
    forall i, j :: 0 <= i < j < |qs| ==> qs[i].now <= qs[j].now
  }

  /** While the clock has not reached t nothing has been counted. */
  lemma {:induction false} NothingBefore(l: Limits, qs: seq<Request>, key: string, t: nat)
    requires forall q :: q in qs ==> q.now < t
    ensures AdmittedWithin(l, qs, key, t) == 0
  {
    if qs != [] {
      assert forall q :: q in qs[..|qs| - 1] ==> q in qs;
      assert qs[|qs| - 1] in qs;
      NothingBefore(l, qs[..|qs| - 1], key, t);
    }
  }

  lemma WholeSeconds(span: nat, secs: nat)
    ensures span / NANOS_PER_SEC >= secs <==> span >= secs * NANOS_PER_SEC
  {
  }

  /** How much of the interval the bucket in force accounts for. A window that was open
    * before t spent its first call before t. */
  ghost predicate Accounted(l: Limits, b: Bucket, admitted: nat, t: nat, last: nat) {
    var end := t + l.windowSecs * NANOS_PER_SEC;
    && b.start <= last && 1 <= b.count <= l.maxRequests
    && admitted < (if b.start < t then b.count else if b.start < end then l.maxRequests + b.count else 2 * l.maxRequests)
  }

  /** The first request of a key opens its bucket. */
  lemma FirstOne(l: Limits, t: nat, now: nat)
    requires l.maxRequests >= 1
    ensures Accounted(l, Bucket(1, now), if t <= now < t + l.windowSecs * NANOS_PER_SEC then 1 else 0, t, now)
  {
  }

  /** One more request of the key. */
  lemma OneMore(l: Limits, b: Bucket, admitted: nat, t: nat, last: nat, now: nat)
    requires Accounted(l, b, admitted, t, last) && last <= now
    requires now < t ==> admitted == 0
    ensures var current := if ElapsedSecs(now, b.start) >= l.windowSecs then Bucket(0, now) else b;
            var counted := if t <= now < t + l.windowSecs * NANOS_PER_SEC then 1 else 0;
            if current.count >= l.maxRequests then Accounted(l, current, admitted, t, now)
            else Accounted(l, current.(count := current.count + 1), admitted + counted, t, now)
  {
    WholeSeconds(now - b.start, l.windowSecs);
  }

  lemma {:induction false} WindowAccounting(l: Limits, qs: seq<Request>, key: string, t: nat)
    requires ClockRuns(qs) && l.maxRequests >= 1
    ensures var buckets := CheckAll(l, qs);
            if key in buckets then qs != [] && Accounted(l, buckets[key], AdmittedWithin(l, qs, key, t), t, qs[|qs| - 1].now)
            else AdmittedWithin(l, qs, key, t) == 0
  {
    if qs != [] {
      var init, q := qs[..|qs| - 1], qs[|qs| - 1];
      WindowAccounting(l, init, key, t);
      if q.key == key {
        if q.now < t {
          NothingBefore(l, init, key, t);
        }
        var buckets := CheckAll(l, init);
        if key in buckets {
          OneMore(l, buckets[key], AdmittedWithin(l, init, key, t), t, init[|init| - 1].now, q.now);
        } else {
          FirstOne(l, t, q.now);
        }
      }
    }
  }

  lemma {:induction false} NoneWithoutAllowance(l: Limits, qs: seq<Request>, key: string, t: nat)
    requires l.maxRequests == 0
    ensures AdmittedWithin(l, qs, key, t) == 0
  {
    if qs != [] {
      NoneWithoutAllowance(l, qs[..|qs| - 1], key, t);
    }
  }

  /** Any half-open interval of one window admits fewer than twice the limit. */
  lemma FewerThanTwicePerWindow(l: Limits, qs: seq<Request>, key: string, t: nat)
    requires ClockRuns(qs)
    ensures AdmittedWithin(l, qs, key, t) <= if l.maxRequests == 0 then 0 else 2 * l.maxRequests - 1
  {
    if l.maxRequests == 0 {
      NoneWithoutAllowance(l, qs, key, t);
    } else {
      WindowAccounting(l, qs, key, t);
    }
  }

  // ---- the bound is reached ----

  /** The same request n times. */
  function Burst(q: Request, n: nat): seq<Request> {
    if n == 0 then [] else Burst(q, n - 1) + [q]
  }

  predicate Counts(l: Limits, q: Request, t: nat) {
    t <= q.now < t + l.windowSecs * NANOS_PER_SEC
  }

  /** After the run the key has this bucket, and this many of its requests were let through from t on. */
  predicate Reached(l: Limits, qs: seq<Request>, key: string, t: nat, b: Bucket, admitted: nat) {
    key in CheckAll(l, qs) && CheckAll(l, qs)[key] == b && AdmittedWithin(l, qs, key, t) == admitted
  }

  /** One more request, counted in an open bucket with room or opening the next one. */
  lemma OneAdmitted(l: Limits, qs: seq<Request>, q: Request, t: nat, b: Bucket, admitted: nat)
    requires Reached(l, qs, q.key, t, b, admitted) && Counts(l, q, t)
    ensures ElapsedSecs(q.now, b.start) < l.windowSecs && b.count < l.maxRequests ==>
              Reached(l, qs + [q], q.key, t, b.(count := b.count + 1), admitted + 1)
    ensures ElapsedSecs(q.now, b.start) >= l.windowSecs && 1 <= l.maxRequests ==>
              Reached(l, qs + [q], q.key, t, Bucket(1, q.now), admitted + 1)
  {
    assert (qs + [q])[..|qs|] == qs;
  }

  /** A burst that fits into the open bucket is let through. */
  lemma {:induction false} BurstAdmitted(l: Limits, qs: seq<Request>, q: Request, n: nat, t: nat, b: Bucket, admitted: nat)
    requires Reached(l, qs, q.key, t, b, admitted) && Counts(l, q, t)
    requires ElapsedSecs(q.now, b.start) < l.windowSecs && b.count + n <= l.maxRequests
    ensures Reached(l, qs + Burst(q, n), q.key, t, b.(count := b.count + n), admitted + n)
  {
    if n == 0 {
      assert qs + Burst(q, n) == qs;
    } else {
      BurstAdmitted(l, qs, q, n - 1, t, b, admitted);
      OneAdmitted(l, qs + Burst(q, n - 1), q, t, b.(count := b.count + (n - 1)), admitted + (n - 1));
      assert qs + Burst(q, n) == qs + Burst(q, n - 1) + [q];
    }
  }

  /** One call at the start of a window, the rest of the allowance at its last instant,
    * and a whole allowance at the first instant of the next. */
  function Straddle(first: Request, late: Request, next: Request, n: nat): seq<Request> {
    (([first] + Burst(late, n)) + [next]) + Burst(next, n)
  }

  lemma {:induction false} BurstTimes(q: Request, n: nat)
    ensures |Burst(q, n)| == n && forall i :: 0 <= i < n ==> Burst(q, n)[i] == q
  {
    if n > 0 {
      BurstTimes(q, n - 1);
    }
  }

  lemma StraddleClock(first: Request, late: Request, next: Request, n: nat)
    requires first.now <= late.now <= next.now
    ensures ClockRuns(Straddle(first, late, next, n))
  {
    BurstTimes(late, n);
    BurstTimes(next, n);
    var qs := Straddle(first, late, next, n);
    forall i | 0 <= i < |qs| ensures qs[i] == if i == 0 then first else if i <= n then late else next {
    }
  }

  lemma FirstOpens(l: Limits, q: Request, t: nat)
    requires l.maxRequests >= 1 && l.windowSecs >= 1 && q.now < t
    ensures Reached(l, [q], q.key, t, Bucket(1, q.now), 0)
  {
    assert [q][..0] == [];
  }

  lemma StraddleCount(l: Limits, first: Request, late: Request, next: Request, n: nat)
    requires l.maxRequests == n + 1 && l.windowSecs >= 1
    requires first.key == late.key == next.key && first.now == 0
    requires late.now == l.windowSecs * NANOS_PER_SEC - 1 && next.now == late.now + 1
    ensures AdmittedWithin(l, Straddle(first, late, next, n), first.key, 1) == 2 * n + 1
  {
    WholeSeconds(late.now, l.windowSecs);
    WholeSeconds(next.now, l.windowSecs);
    FirstOpens(l, first, 1);
    BurstAdmitted(l, [first], late, n, 1, Bucket(1, 0), 0);
    OneAdmitted(l, [first] + Burst(late, n), next, 1, Bucket(n + 1, 0), n);
    BurstAdmitted(l, ([first] + Burst(late, n)) + [next], next, n, 1, Bucket(1, next.now), n + 1);
  }

  /** For every limit and window one less than twice the limit is let through within one window length. */
  lemma BoundIsReached(l: Limits, key: string)
    requires l.maxRequests >= 1 && l.windowSecs >= 1
    ensures var end, n := l.windowSecs * NANOS_PER_SEC, l.maxRequests - 1;
            var qs := Straddle(Request(key, 0), Request(key, end - 1), Request(key, end), n);
            ClockRuns(qs) && AdmittedWithin(l, qs, key, 1) == 2 * l.maxRequests - 1
  {
    var end, n := l.windowSecs * NANOS_PER_SEC, l.maxRequests - 1;
    StraddleClock(Request(key, 0), Request(key, end - 1), Request(key, end), n);
    StraddleCount(l, Request(key, 0), Request(key, end - 1), Request(key, end), n);
  }

  /** What a sliding window would promise: never more than the limit within one window length. */
  ghost predicate Slides(l: Limits) {
    forall qs: seq<Request>, key, t: nat :: ClockRuns(qs) ==> AdmittedWithin(l, qs, key, t) <= l.maxRequests
  }

  lemma {:induction false} NoneInNoTime(l: Limits, qs: seq<Request>, key: string, t: nat)
    requires l.windowSecs == 0
    ensures AdmittedWithin(l, qs, key, t) == 0
  {
    if qs != [] {
      NoneInNoTime(l, qs[..|qs| - 1], key, t);
    }
  }

  /** The fixed window slides exactly when the limit is at most one call, or the window is empty. */
  lemma SlidesExactly(l: Limits)
    ensures Slides(l) <==> l.maxRequests <= 1 || l.windowSecs == 0
  {
    if l.maxRequests <= 1 || l.windowSecs == 0 {
      forall qs: seq<Request>, key, t: nat | ClockRuns(qs) ensures AdmittedWithin(l, qs, key, t) <= l.maxRequests {
        if l.windowSecs == 0 {
          NoneInNoTime(l, qs, key, t);
        } else {
          FewerThanTwicePerWindow(l, qs, key, t);
        }
      }
    } else {
      BoundIsReached(l, "");
    }
  }

  // ---- what a refusal does ----

  /** The position of the call that opened the window of a key that is current after the run: its first call, or the
    * first one at least a window later than the opening before. Nothing here depends on what was admitted. */
  function Opening(l: Limits, qs: seq<Request>, key: string): (i: int)
    ensures -1 <= i < |qs| && (i >= 0 ==> qs[i].key == key)
  {
    if qs == [] then -1
    else
      var before, last := Opening(l, qs[..|qs| - 1], key), |qs| - 1;
      if qs[last].key == key && (before < 0 || Expired(l, qs[before].now, qs[last].now)) then last else before
  }

  /** At least one window has passed. */
  predicate Expired(l: Limits, start: nat, now: nat) {
    now >= start + l.windowSecs * NANOS_PER_SEC
  }

  /** How many calls of the key from position i on were let through. */
  function AdmittedFrom(l: Limits, qs: seq<Request>, key: string, i: nat): nat {
    if |qs| <= i then 0
    else AdmittedFrom(l, qs[..|qs| - 1], key, i) + if qs[|qs| - 1].key == key && LastAdmitted(l, qs) then 1 else 0
  }

  /** The bucket of a key holds the time of its opening call and the calls admitted from there on. */
  ghost predicate Tracks(l: Limits, qs: seq<Request>, key: string) {
    var i, buckets := Opening(l, qs, key), CheckAll(l, qs);
    if i < 0 then key !in buckets else key in buckets && buckets[key] == Bucket(AdmittedFrom(l, qs, key, i), qs[i].now)
  }

  /** What one more call of the key does to each of the three. */
  lemma OneMoreCall(l: Limits, qs: seq<Request>, q: Request, from: nat)
    requires from <= |qs|
    ensures var v := Check(l, CheckAll(l, qs), q);
            && CheckAll(l, qs + [q]) == v.buckets
            && AdmittedFrom(l, qs + [q], q.key, from) == AdmittedFrom(l, qs, q.key, from) + if v.answer.Ok? then 1 else 0
    ensures var i := Opening(l, qs, q.key);
            Opening(l, qs + [q], q.key) == if i < 0 || Expired(l, qs[i].now, q.now) then |qs| else i
  {
    assert (qs + [q])[..|qs|] == qs;
  }

  lemma TracksOneMore(l: Limits, qs: seq<Request>, q: Request)
    requires Tracks(l, qs, q.key) && forall i :: 0 <= i < |qs| ==> qs[i].now <= q.now
    ensures Tracks(l, qs + [q], q.key)
  {
    var i := Opening(l, qs, q.key);
    if i < 0 || Expired(l, qs[i].now, q.now) {
      OneMoreCall(l, qs, q, |qs|);
    } else {
      OneMoreCall(l, qs, q, i);
    }
    if i >= 0 {
      WholeSeconds(q.now - qs[i].now, l.windowSecs);
    }
  }

  lemma {:induction false} BucketsTrack(l: Limits, qs: seq<Request>, key: string)
    requires ClockRuns(qs)
    ensures Tracks(l, qs, key)
  {
    if qs != [] {
      var init, q := qs[..|qs| - 1], qs[|qs| - 1];
      BucketsTrack(l, init, key);
      if q.key == key {
        TracksOneMore(l, init, q);
        assert init + [q] == qs;
      }
    }
  }

  /** A call is let through exactly when its key's window is over, or fewer calls than the limit were let through
    * since the window was opened. A limit of zero lets nothing through. */
  lemma AdmittedExactly(l: Limits, qs: seq<Request>, q: Request)
    requires ClockRuns(qs + [q])
    ensures var i := Opening(l, qs, q.key);
            Check(l, CheckAll(l, qs), q).answer.Ok? <==>
              && l.maxRequests >= 1
              && (i < 0 || Expired(l, qs[i].now, q.now) || AdmittedFrom(l, qs, q.key, i) < l.maxRequests)
  {
    var i := Opening(l, qs, q.key);
    assert (qs + [q])[..|qs|] == qs;
    assert forall k :: 0 <= k < |qs| ==> (qs + [q])[k] == qs[k];
    BucketsTrack(l, qs, q.key);
    if i >= 0 {
      assert (qs + [q])[i].now <= (qs + [q])[|qs|].now;
      WholeSeconds(q.now - qs[i].now, l.windowSecs);
    }
  }

  /** The refused caller is told the least number of whole seconds after which a call is let through. */
  lemma WaitIsLeast(l: Limits, qs: seq<Request>, q: Request, wait: nat)
    requires ClockRuns(qs + [q]) && l.maxRequests >= 1
    requires Check(l, CheckAll(l, qs), q).answer == Err(wait)
    ensures forall w: nat ::
              Check(l, CheckAll(l, qs + [q]), Request(q.key, q.now + w * NANOS_PER_SEC)).answer.Ok? <==> w >= wait
  {
    var buckets := CheckAll(l, qs);
    assert (qs + [q])[..|qs|] == qs;
    BucketsTrack(l, qs, q.key);
    var i := Opening(l, qs, q.key);
    assert i >= 0;
    assert (qs + [q])[i] == qs[i] && (qs + [q])[i].now <= (qs + [q])[|qs|].now;
    forall w: nat
      ensures Check(l, CheckAll(l, qs + [q]), Request(q.key, q.now + w * NANOS_PER_SEC)).answer.Ok? <==> w >= wait
    {
      assert ElapsedSecs(q.now + w * NANOS_PER_SEC, qs[i].now) == ElapsedSecs(q.now, qs[i].now) + w;
    }
  }

  // ---- a refusal leaves no trace ----

  lemma {:induction false} SameBucketsSameRun(l: Limits, xs: seq<Request>, ys: seq<Request>, zs: seq<Request>)
    requires CheckAll(l, xs) == CheckAll(l, ys)
    ensures CheckAll(l, xs + zs) == CheckAll(l, ys + zs)
  {
    if zs == [] {
      assert xs + zs == xs && ys + zs == ys;
    } else {
      var init := zs[..|zs| - 1];
      SameBucketsSameRun(l, xs, ys, init);
      assert (xs + zs)[..|xs + zs| - 1] == xs + init && (ys + zs)[..|ys + zs| - 1] == ys + init;
    }
  }

  /** Leaving a refused call out of any run changes no later answer, the seconds to wait included. */
  ghost predicate RefusalsLeaveNoTrace(l: Limits) {
    forall before: seq<Request>, refused, after, q ::
      ClockRuns(before + [refused] + after + [q]) && Check(l, CheckAll(l, before), refused).answer.Err? ==>
        Check(l, CheckAll(l, before + [refused] + after), q).answer == Check(l, CheckAll(l, before + after), q).answer
  }

  /** With a limit of at least one a refused call does not touch the buckets. */
  lemma RefusalTouchesNothing(l: Limits, qs: seq<Request>, q: Request)
    requires l.maxRequests >= 1 && Check(l, CheckAll(l, qs), q).answer.Err?
    ensures CheckAll(l, qs + [q]) == CheckAll(l, qs)
  {
    assert (qs + [q])[..|qs|] == qs;
    var buckets := CheckAll(l, qs);
    assert q.key in buckets && buckets[q.key := buckets[q.key]] == buckets;
  }

  /** That holds exactly when something can be let through at all, or nobody is ever told to wait for more than a second. */
  lemma NoTraceExactly(l: Limits)
    ensures RefusalsLeaveNoTrace(l) <==> l.maxRequests >= 1 || l.windowSecs <= 1
  {
    if l.maxRequests >= 1 || l.windowSecs <= 1 {
      forall before: seq<Request>, refused, after, q
        | ClockRuns(before + [refused] + after + [q]) && Check(l, CheckAll(l, before), refused).answer.Err?
        ensures Check(l, CheckAll(l, before + [refused] + after), q).answer == Check(l, CheckAll(l, before + after), q).answer
      {
        if l.maxRequests >= 1 {
          RefusalTouchesNothing(l, before, refused);
          SameBucketsSameRun(l, before + [refused], before, after);
        }
      }
    } else {
      var refused, q := Request("", 0), Request("", NANOS_PER_SEC);
      var qs := [] + [refused] + [];
      assert qs == [refused] && qs[..0] == [];
      assert ClockRuns(qs + [q]);
      assert Check(l, CheckAll(l, [] + []), q).answer == Err(l.windowSecs);
      assert Check(l, CheckAll(l, qs), q).answer == Err(l.windowSecs - 1);
    }
  }

  // ---- keys do not interfere ----

  function OfKey(qs: seq<Request>, key: string): seq<Request> {
    if qs == [] then []
    else
      var rest := OfKey(qs[..|qs| - 1], key);
      if qs[|qs| - 1].key == key then rest + [qs[|qs| - 1]] else rest
  }

  predicate SameBucket(a: map<string, Bucket>, b: map<string, Bucket>, key: string) {
    (key in a <==> key in b) && (key in a ==> a[key] == b[key])
  }

  lemma SameBucketSameAnswer(l: Limits, a: map<string, Bucket>, b: map<string, Bucket>, q: Request)
    requires SameBucket(a, b, q.key)
    ensures Check(l, a, q).answer == Check(l, b, q).answer
    ensures SameBucket(Check(l, a, q).buckets, Check(l, b, q).buckets, q.key)
  {
    assert GetOr(a, q.key, Bucket(0, q.now)) == GetOr(b, q.key, Bucket(0, q.now));
  }

  lemma {:induction false} BucketsAreIndependent(l: Limits, qs: seq<Request>, key: string)
    ensures SameBucket(CheckAll(l, qs), CheckAll(l, OfKey(qs, key)), key)
  {
    if qs != [] {
      var init, last := qs[..|qs| - 1], qs[|qs| - 1];
      BucketsAreIndependent(l, init, key);
      var rest := OfKey(init, key);
      if last.key == key {
        SameBucketSameAnswer(l, CheckAll(l, init), CheckAll(l, rest), last);
        assert (rest + [last])[..|rest|] == rest;
      }
    }
  }

  /** Dropping every call on other keys changes neither the bucket nor any answer. */
  lemma KeysAreIndependent(l: Limits, qs: seq<Request>, q: Request)
    ensures Check(l, CheckAll(l, qs), q).answer == Check(l, CheckAll(l, OfKey(qs, q.key)), q).answer
  {
    BucketsAreIndependent(l, qs, q.key);
    SameBucketSameAnswer(l, CheckAll(l, qs), CheckAll(l, OfKey(qs, q.key)), q);
  }

  class RateLimiter {
    const limits: Limits
    var buckets: map<string, Bucket>

    constructor (maxRequests: nat, windowSecs: nat)
      ensures limits == Limits(maxRequests, windowSecs) && buckets == map[]
    {
      limits, buckets := Limits(maxRequests, windowSecs), map[];
    }

    method CheckRequest(key: string, now: nat) returns (r: Result<Unit, nat>)
      modifies this`buckets
      ensures Verdict(buckets, r) == Check(limits, old(buckets), Request(key, now))
      ensures r.Err? && limits.maxRequests >= 1 ==> buckets == old(buckets)
    {
      if key !in buckets {
        buckets := buckets[key := Bucket(0, now)];
      }
      var entry := buckets[key];
      if ElapsedSecs(now, entry.start) >= limits.windowSecs {
        entry := Bucket(0, now);
        buckets := buckets[key := entry];
      }
      if entry.count >= limits.maxRequests {
        var elapsed := ElapsedSecs(now, entry.start);
        return Err(if limits.windowSecs < elapsed then 0 else limits.windowSecs - elapsed);
      }
      buckets := buckets[key := entry.(count := entry.count + 1)];
      return Ok(Unit);
    }
  }
}
