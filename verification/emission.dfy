/** The halving schedule and its bound (src/ledger.rs). */
module Emission {
  import opened Types
  import P = ProofOfWork

  const INITIAL_BLOCK_REWARD: nat := 100_000_000_000
  const HALVING_INTERVAL: nat := 210_000
  const EMISSION_BOUND: nat := 42_000_000_002_310_000
  const MAX_SUPPLY: nat := 18_000_000_000_000_000_000

  /** x >> k on an unsigned number. */
  function ShiftRight(x: nat, k: nat): (r: nat)
    ensures r <= x
  {
    if k == 0 then x else ShiftRight(x, k - 1) / 2
  }

  function CalculateReward(height: nat): u64 {
    EraReward(height / HALVING_INTERVAL)
  }

  function EraReward(halvings: nat): u64 {
    if halvings >= 63 then 0
    else
      var reward := ShiftRight(INITIAL_BLOCK_REWARD, halvings);
      if reward < 1 then 1 else reward
  }

  /** The rewards of heights 0 .. n - 1 together. */
  function RewardSum(n: nat): nat {
    if n == 0 then 0 else RewardSum(n - 1) + CalculateReward(n - 1)
  }

  lemma {:induction false} EraRewardNeverRises(j: nat, k: nat)
    requires j <= k
    ensures EraReward(k) <= EraReward(j)
  {
    if j < k {
      EraRewardNeverRises(j, k - 1);
    }
  }

  /** At least one unit is paid exactly before the 63rd halving. */
  lemma RewardIsPositive(height: nat)
    ensures CalculateReward(height) >= 1 <==> height < 63 * HALVING_INTERVAL
  {
    assert height / HALVING_INTERVAL >= 63 <==> height >= 63 * HALVING_INTERVAL;
  }

  /** The first height that pays nothing. */
  lemma RewardRunsOut()
    ensures CalculateReward(63 * 210_000) == 0
  {
    RewardIsPositive(63 * 210_000);
  }

  lemma {:induction false} RewardNeverRises(low: nat, high: nat)
    requires low <= high
    ensures CalculateReward(high) <= CalculateReward(low)
  {
    EraRewardNeverRises(low / HALVING_INTERVAL, high / HALVING_INTERVAL);
  }

  // ---- the schedule in numbers ----

  function Max(a: int, b: int): int {
    if a < b then b else a
  }

  /** Dividing by 2^k rounds down, from the 63rd halving on nothing is paid, and before that at least one unit. */
  function Halved(k: nat): nat {
    if k >= 63 then 0 else Max(1, 100_000_000_000 / P.Pow2(k))
  }

  lemma QuotientIs(x: nat, d: nat, q: nat, r: nat)
    requires d >= 1 && x == d * q + r && r < d
    ensures x / d == q
  {
    Apart(d, x / d - q, r - x % d);
  }

  lemma Apart(d: nat, k: int, r: int)
    requires d >= 1 && d * k == r && 0 - d < r < d
    ensures k == 0
  {
  }

  lemma DivideTwice(x: nat, p: nat)
    requires p >= 1
    ensures x / p / 2 == x / (2 * p)
  {
    HalfQuotient(x, p, x / p / 2, x / p % 2, x % p);
  }

  lemma HalfQuotient(x: nat, p: nat, half: nat, odd: nat, rest: nat)
    requires x == p * (2 * half + odd) + rest && odd < 2 && rest < p
    ensures x / (2 * p) == half
  {
    assert p * (2 * half + odd) == 2 * p * half + p * odd;
    QuotientIs(x, 2 * p, half, p * odd + rest);
  }

  /** A shift by k divides by 2^k. */
  lemma {:induction false} ShiftDivides(x: nat, k: nat)
    ensures ShiftRight(x, k) == x / P.Pow2(k)
  {
    if k > 0 {
      ShiftDivides(x, k - 1);
      DivideTwice(x, P.Pow2(k - 1));
    }
  }

  /** The reward of a height is 10^11 divided by 2 to the number of halvings. */
  lemma RewardIsHalved(height: nat)
    ensures CalculateReward(height) == Halved(height / 210_000)
  {
    ShiftDivides(INITIAL_BLOCK_REWARD, height / 210_000);
  }

  lemma FirstEraPaysInFull(height: nat)
    requires height < 210_000
    ensures CalculateReward(height) == 100_000_000_000
  {
    assert height / HALVING_INTERVAL == 0;
  }

  /** One interval later half is paid, and never less than one unit before the 63rd halving. */
  lemma EveryEraHalves(height: nat)
    requires height < 62 * 210_000
    ensures CalculateReward(height + 210_000) == Max(1, CalculateReward(height) / 2)
  {
    assert (height + HALVING_INTERVAL) / HALVING_INTERVAL == height / HALVING_INTERVAL + 1;
  }

  /** One reward of each of the first k eras. */
  function EraSum(k: nat): nat {
    if k == 0 then 0 else EraSum(k - 1) + Halved(k - 1)
  }

  /** The first n heights: whole eras, and the part of the next one that they reach into. */
  lemma {:induction false} SumByEras(n: nat)
    ensures RewardSum(n) == 210_000 * EraSum(n / 210_000) + n % 210_000 * Halved(n / 210_000)
  {
    if n > 0 {
      SumByEras(n - 1);
      RewardIsHalved(n - 1);
      var era, rest := (n - 1) / HALVING_INTERVAL, (n - 1) % HALVING_INTERVAL;
      EraStep(rest, Halved(era), EraSum(era));
      if rest + 1 == HALVING_INTERVAL {
        assert n / HALVING_INTERVAL == era + 1 && n % HALVING_INTERVAL == 0;
      } else {
        assert n / HALVING_INTERVAL == era && n % HALVING_INTERVAL == rest + 1;
      }
    }
  }

  /** One more reward of x fills the era or leaves it open. */
  lemma EraStep(rest: nat, x: nat, sum: nat)
    ensures 210_000 * sum + rest * x + x == 210_000 * sum + (rest + 1) * x
    ensures rest + 1 == 210_000 ==> 210_000 * sum + rest * x + x == 210_000 * (sum + x)
  {
  }

  /** One full era mints 210,000 rewards of 10^11. */
  lemma FirstEraTotal()
    ensures RewardSum(210_000) == 210_000 * 100_000_000_000
  {
    SumByEras(210_000);
    assert EraSum(1) == EraSum(0) + Halved(0);
  }

  /** One reward of each of k eras, the first of which pays x. */
  function Eras(k: nat, x: nat): nat {
    if k == 0 then 0 else Max(1, x) + Eras(k - 1, x / 2)
  }

  lemma {:induction false} EraSumSplits(j: nat, k: nat, x: nat)
    requires j + k <= 63 && x == 100_000_000_000 / P.Pow2(j)
    ensures EraSum(j + k) == EraSum(j) + Eras(k, x)
    decreases k
  {
    if k > 0 {
      DivideTwice(100_000_000_000, P.Pow2(j));
      EraSumSplits(j + 1, k - 1, x / 2);
    }
  }

  lemma {:induction false} OneUnitEach(k: nat)
    ensures Eras(k, 0) == k
  {
    if k > 0 {
      OneUnitEach(k - 1);
    }
  }

  lemma FourEras(k: nat, a: nat, b: nat, c: nat, d: nat, e: nat)
    requires k >= 4 && a >= 1 && b == a / 2 && c == b / 2 && d == c / 2 && e == d / 2 && d >= 1
    ensures Eras(k, a) == a + b + c + d + Eras(k - 4, e)
  {
    assert Eras(k - 2, c) == c + d + Eras(k - 4, e);
  }

  lemma LateEras()
    ensures Eras(43, 95_367) == 190_751
  {
    OneUnitEach(26);
    assert Eras(27, 1) == 27;
    FourEras(31, 23, 11, 5, 2, 1);
    FourEras(35, 372, 186, 93, 46, 23);
    FourEras(39, 5_960, 2_980, 1_490, 745, 372);
    FourEras(43, 95_367, 47_683, 23_841, 11_920, 5_960);
  }

  lemma ErasInFull()
    ensures Eras(63, 100_000_000_000) == 200_000_000_011
  {
    LateEras();
    FourEras(47, 1_525_878, 762_939, 381_469, 190_734, 95_367);
    FourEras(51, 24_414_062, 12_207_031, 6_103_515, 3_051_757, 1_525_878);
    FourEras(55, 390_625_000, 195_312_500, 97_656_250, 48_828_125, 24_414_062);
    FourEras(59, 6_250_000_000, 3_125_000_000, 1_562_500_000, 781_250_000, 390_625_000);
    FourEras(63, 100_000_000_000, 50_000_000_000, 25_000_000_000, 12_500_000_000, 6_250_000_000);
  }

  lemma {:induction false} AllEras(k: nat)
    requires k >= 63
    ensures EraSum(k) == 200_000_000_011
  {
    if k > 63 {
      AllEras(k - 1);
    } else {
      EraSumSplits(0, k, 100_000_000_000);
      ErasInFull();
    }
  }

  /** The whole schedule mints this much, and no height after the last era adds to it. */
  lemma WholeEmission(n: nat)
    requires n >= 63 * 210_000
    ensures RewardSum(n) == 42_000_000_002_310_000
  {
    var era, rest := n / HALVING_INTERVAL, n % HALVING_INTERVAL;
    SumByEras(n);
    AllEras(era);
    assert rest * Halved(era) == rest * 0;
  }

  lemma {:induction false} SumGrows(m: nat, n: nat)
    requires m <= n
    ensures RewardSum(m) <= RewardSum(n)
  {
    if m < n {
      SumGrows(m, n - 1);
    }
  }

  /** No number of heights ever mints more than this, and it is reached exactly when the last era is over. */
  lemma EmissionIsBounded(n: nat)
    ensures RewardSum(n) <= EMISSION_BOUND
    ensures RewardSum(n) == EMISSION_BOUND <==> n >= 63 * 210_000
  {
    if n >= 63 * 210_000 {
      WholeEmission(n);
    } else {
      RewardIsPositive(n);
      SumGrows(n + 1, 63 * 210_000);
      WholeEmission(63 * 210_000);
    }
  }
}
