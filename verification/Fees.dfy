/** Fee tiers, the volatility oracle behind the dynamic fee, and global fee growth. */
module Fees {
  import opened Common
  import opened FixedPoint

  const FEE_TIER_LOW: nat := 5
  const FEE_TIER_MID: nat := 30
  const FEE_TIER_HIGH: nat := 100
  const MAX_FEE_PREMIUM_BPS: nat := 50
  const VOLATILITY_DIVISOR: nat := 10
  const ORACLE_PERIODS: nat := 24
  const ORACLE_PERIOD_SECS: nat := 3_600
  const U32_SIZE: int := 0x1_0000_0000

  predicate IsValidFeeTier(tier: nat) {
    tier in {FEE_TIER_LOW, FEE_TIER_MID, FEE_TIER_HIGH}
  }

  // ---------------------------------------------------------------- integer square root

  ghost predicate IsFloorSqrt(x: int, n: int) {
    0 <= x && x * x <= n < (x + 1) * (x + 1)
  }

  lemma FloorSqrtUnique(x: int, y: int, n: int)
    requires IsFloorSqrt(x, n) && IsFloorSqrt(y, n)
    ensures x == y
  {
    if x < y {
      SquareMonotone(x + 1, y);
    } else if y < x {
      SquareMonotone(y + 1, x);
    }
  }

  lemma SquareMonotone(a: int, b: int)
    requires 0 <= a <= b
    ensures a * a <= b * b
  {
    MulMonotone(a, b, a);
    MulMonotone(a, b, b);
  }

  /** Newton's step from any positive x lands at or above the root. */
  lemma NewtonAbove(x: int, n: int)
    requires x > 0 && n > 0
    ensures var y := (x + n / x) / 2; n < (y + 1) * (y + 1)
  {
    var q := n / x;
    DivBounds(n, x);
    var y := (x + q) / 2;
    var z := y + 1;
    assert x + q + 1 <= 2 * z;
    assert n + 1 <= x * (q + 1) by {
      assert x * (q + 1) == q * x + x;
    }
    TwiceProduct(x, q + 1, z);
  }

  /** Two numbers with sum at most 2 z have product at most z squared. */
  lemma TwiceProduct(x: int, w: int, z: int)
    requires x + w <= 2 * z && x > 0
    ensures x * w <= z * z
  {
    var d := z - x;
    assert w <= z + d;
    MulMonotone(w, z + d, x);
    assert w * x == x * w;
    assert (z + d) * x == (z + d) * (z - d);
    assert (z + d) * (z - d) == z * z - d * d;
    assert d * d >= 0;
  }

  /** The root of the integer part, two binary digits at a time. */
  function FloorSqrt(n: int): (x: int)
    ensures n <= 0 ==> x == 0
    ensures n >= 0 ==> IsFloorSqrt(x, n)
    decreases Max(n, 0)
  {
    if n <= 0 then 0
    else
      var half := FloorSqrt(n / 4);
      assert (2 * half + 2) * (2 * half + 2) == 4 * ((half + 1) * (half + 1));
      assert (2 * half) * (2 * half) == 4 * (half * half);
      if (2 * half + 1) * (2 * half + 1) <= n then 2 * half + 1 else 2 * half
  }

  /** Newton iteration from n down to the floor of the square root. */
  method Isqrt(n: int) returns (x: int)
    ensures n <= 0 ==> x == 0
    ensures n >= 0 ==> IsFloorSqrt(x, n)
    ensures x == FloorSqrt(n)
  {
    if n <= 0 {
      return 0;
    }
    x := n;
    var y := (x + 1) / 2;
    FirstGuess(n);
    assert n / x == 1 by {
      DivUnique(n, n, 1);
    }
    while y < x
      invariant x > 0
      invariant y == (x + n / x) / 2
      invariant n < (x + 1) * (x + 1)
      decreases x
    {
      NewtonAbove(x, n);
      NewtonPositive(x, n);
      x := y;
      y := (x + n / x) / 2;
    }
    NewtonDone(x, n);
    FloorSqrtUnique(x, FloorSqrt(n), n);
  }

  lemma FirstGuess(n: int)
    requires n > 0
    ensures n < (n + 1) * (n + 1)
  {
    assert (n + 1) * (n + 1) == n * n + 2 * n + 1;
  }

  lemma NewtonPositive(x: int, n: int)
    requires x > 0 && n > 0 && (x + n / x) / 2 < x
    ensures (x + n / x) / 2 > 0
  {
    DivNonNegative(n, x);
    if x == 1 {
      DivUnique(n, 1, n);
    }
  }

  lemma NewtonDone(x: int, n: int)
    requires x > 0 && n > 0 && (x + n / x) / 2 >= x
    ensures x * x <= n
  {
    DivAtLeast(n, x, x);
  }

  // ---------------------------------------------------------------- dynamic fee

  datatype Oracle = Oracle(fee: nat, samples: nat)

  /** Periods read, newest first; before period 24 the subtraction saturates and period 0 repeats. */
  function PeriodAt(current: nat, i: nat): nat {
    if i <= current then current - i else 0
  }

  /** Samples recorded among the last `n` periods, newest first. */
  function Collected(history: map<nat, int>, current: nat, n: nat): seq<int> {
    if n == 0 then []
    else
      var earlier := Collected(history, current, n - 1);
      var period := PeriodAt(current, n - 1);
      if period in history then earlier + [history[period]] else earlier
  }

  function SquaredDeviations(samples: seq<int>, mean: int): int {
    if samples == [] then 0
    else
      var diff := samples[|samples| - 1] - mean;
      SquaredDeviations(samples[..|samples| - 1], mean) + diff * diff
  }

  /** The premium truncates the volatility to 32 bits before it is divided and capped. */
  function Premium(volatilityBps: int): (p: nat)
    requires volatilityBps >= 0
    ensures p <= MAX_FEE_PREMIUM_BPS
  {
    Min(volatilityBps % U32_SIZE / VOLATILITY_DIVISOR, MAX_FEE_PREMIUM_BPS)
  }

  predicate PositiveHistory(history: map<nat, int>) {
    forall p :: p in history ==> 0 < history[p]
  }

  /** The fee that a list of samples gives, or an abort when a sum does not fit. */
  function FeeOf(samples: seq<int>, baseFee: nat): Checked<Oracle> {
    if !Fits(Sum(samples)) then Overflow
    else if |samples| < 2 then Ok(Oracle(baseFee, |samples|))
    else
      var mean := TruncDiv(Sum(samples), |samples|);
      if mean == 0 then Ok(Oracle(baseFee, |samples|))
      else if !Fits(SquaredDeviations(samples, mean)) then Overflow
      else Ok(Oracle(baseFee + Premium(VolatilityBps(samples, mean)), |samples|))
  }

  function VolatilityBps(samples: seq<int>, mean: int): (v: nat)
    requires samples != []
  {
    SquaredDeviationsPositive(samples, mean);
    var variance := TruncDiv(SquaredDeviations(samples, mean), |samples|);
    TruncDiv(FloorSqrt(variance) * 10_000, Max(mean, 1))
  }

  /** The fee for the samples of the last 24 periods. */
  function DynamicFee(history: map<nat, int>, now: nat, baseFee: nat): Checked<Oracle> {
    FeeOf(Collected(history, now / ORACLE_PERIOD_SECS, ORACLE_PERIODS), baseFee)
  }

  lemma {:induction false} SquaredDeviationsPositive(samples: seq<int>, mean: int)
    ensures SquaredDeviations(samples, mean) >= 0
  {
    if samples != [] {
      SquaredDeviationsPositive(samples[..|samples| - 1], mean);
      var diff := samples[|samples| - 1] - mean;
      assert diff * diff >= 0;
    }
  }

  lemma {:induction false} CollectedAreSamples(history: map<nat, int>, current: nat, n: nat)
    requires PositiveHistory(history)
    ensures forall i :: 0 <= i < |Collected(history, current, n)| ==> Collected(history, current, n)[i] > 0
    ensures |Collected(history, current, n)| <= n
  {
    if n > 0 {
      CollectedAreSamples(history, current, n - 1);
    }
  }

  lemma {:induction false} SumPrefix(samples: seq<int>, k: nat)
    requires k <= |samples| && forall i :: 0 <= i < |samples| ==> samples[i] > 0
    ensures 0 <= Sum(samples[..k]) <= Sum(samples)
    decreases |samples|
  {
    if k == |samples| {
      assert samples[..k] == samples;
      if samples != [] {
        SumPrefix(samples[..|samples| - 1], |samples| - 1);
        assert samples[..|samples| - 1][..|samples| - 1] == samples[..|samples| - 1];
      }
    } else {
      SumPrefix(samples[..|samples| - 1], k);
      assert samples[..|samples| - 1][..k] == samples[..k];
    }
  }

  lemma {:induction false} DeviationsPrefix(samples: seq<int>, mean: int, k: nat)
    requires k <= |samples|
    ensures SquaredDeviations(samples[..k], mean) <= SquaredDeviations(samples, mean)
    decreases |samples|
  {
    if k == |samples| {
      assert samples[..k] == samples;
    } else {
      DeviationsPrefix(samples[..|samples| - 1], mean, k);
      assert samples[..|samples| - 1][..k] == samples[..k];
      var diff := samples[|samples| - 1] - mean;
      assert diff * diff >= 0;
    }
  }

  lemma {:induction false} CollectedGrows(history: map<nat, int>, current: nat, m: nat, n: nat)
    requires m <= n
    ensures Collected(history, current, m) <= Collected(history, current, n)
    decreases n
  {
    if m < n {
      CollectedGrows(history, current, m, n - 1);
    }
  }

  /** Gathers the samples into a fixed buffer, newest first, and sums them. */
  method CollectSamples(history: map<nat, int>, currentPeriod: nat, samples: array<int>)
    returns (count: nat, sum: Checked<int>)
    requires samples.Length == ORACLE_PERIODS && PositiveHistory(history)
    modifies samples
    ensures var all := Collected(history, currentPeriod, ORACLE_PERIODS);
      if Fits(Sum(all)) then sum == Ok(Sum(all)) && count == |all| <= ORACLE_PERIODS && samples[..count] == all
      else sum.Overflow?
  {
    hide PeriodAt, PositiveHistory;
    count := 0;
    var total := 0;
    for i := 0 to ORACLE_PERIODS
      invariant count <= i
      invariant samples[..count] == Collected(history, currentPeriod, i)
      invariant total == Sum(Collected(history, currentPeriod, i)) && 0 <= total && Fits(total)
    {
      var period := PeriodAt(currentPeriod, i);
      PartialSums(history, currentPeriod, i);
      if period in history {
        samples[count] := history[period];
        if !Fits(total + history[period]) {
          return count, Overflow;
        }
        total := total + history[period];
        count := count + 1;
      }
    }
    sum := Ok(total);
  }

  /** One more period adds its sample to the list and the sum, and sums never decrease. */
  lemma PartialSums(history: map<nat, int>, current: nat, i: nat)
    requires PositiveHistory(history) && i < ORACLE_PERIODS
    ensures var period := PeriodAt(current, i);
      var before, after := Collected(history, current, i), Collected(history, current, i + 1);
      && (period in history ==> history[period] > 0 && after == before + [history[period]])
      && (period !in history ==> after == before)
      && Sum(after) == Sum(before) + (if period in history then history[period] else 0)
      && 0 <= Sum(before) <= Sum(after) <= Sum(Collected(history, current, ORACLE_PERIODS))
  {
    var before, after := Collected(history, current, i), Collected(history, current, i + 1);
    var all := Collected(history, current, ORACLE_PERIODS);
    CollectedAreSamples(history, current, ORACLE_PERIODS);
    CollectedAreSamples(history, current, i);
    CollectedGrows(history, current, i + 1, ORACLE_PERIODS);
    SumPrefix(all, |after|);
    assert all[..|after|] == after;
    SumPrefix(before, |before|);
    assert before[..|before|] == before;
    if PeriodAt(current, i) in history {
      assert after[..|after| - 1] == before;
    }
  }

  /** The second pass over the buffer. */
  method SumSquaredDeviations(samples: array<int>, count: nat, mean: int) returns (sum: Checked<int>)
    requires count <= samples.Length
    ensures var all := samples[..count];
      sum == if Fits(SquaredDeviations(all, mean)) then Ok(SquaredDeviations(all, mean)) else Overflow
  {
    var total := 0;
    ghost var all := samples[..count];
    for i := 0 to count
      invariant total == SquaredDeviations(all[..i], mean) && 0 <= total && Fits(total)
    {
      var diff := samples[i] - mean;
      assert all[..i + 1][..i] == all[..i];
      MulSelf(diff);
      DeviationsPrefix(all, mean, i + 1);
      if !Fits(diff * diff) || !Fits(total + diff * diff) {
        return Overflow;
      }
      total := total + diff * diff;
    }
    assert all[..count] == all;
    sum := Ok(total);
  }

  lemma MulSelf(x: int)
    ensures x * x >= 0
  {
  }

  method ComputeDynamicFee(history: map<nat, int>, now: nat, baseFee: nat) returns (r: Checked<Oracle>)
    requires PositiveHistory(history)
    ensures r == DynamicFee(history, now, baseFee)
  {
    hide Collected, Sum, SquaredDeviations, FloorSqrt, Premium, TruncDiv;
    var samples := new int[ORACLE_PERIODS];
    var count, sum := CollectSamples(history, now / ORACLE_PERIOD_SECS, samples);
    if sum.Overflow? {
      return Overflow;
    }
    if count < 2 {
      return Ok(Oracle(baseFee, count));
    }
    var mean := TruncDiv(sum.value, count);
    if mean == 0 {
      return Ok(Oracle(baseFee, count));
    }
    var varianceSum := SumSquaredDeviations(samples, count, mean);
    if varianceSum.Overflow? {
      return Overflow;
    }
    SquaredDeviationsPositive(samples[..count], mean);
    var variance := TruncDiv(varianceSum.value, count);
    var root := Isqrt(variance);
    var volatilityBps := TruncDiv(root * 10_000, Max(mean, 1));
    r := Ok(Oracle(baseFee + Premium(volatilityBps), count));
  }

  lemma DynamicFeeWithinPremium(history: map<nat, int>, now: nat, baseFee: nat)
    requires DynamicFee(history, now, baseFee).Ok?
    ensures baseFee <= DynamicFee(history, now, baseFee).value.fee <= baseFee + MAX_FEE_PREMIUM_BPS
  {
    hide TruncDiv, Premium, FloorSqrt;
  }

  lemma {:induction false} ConstantSamples(samples: seq<int>, price: int)
    requires forall i :: 0 <= i < |samples| ==> samples[i] == price
    ensures Sum(samples) == price * |samples|
    ensures SquaredDeviations(samples, price) == 0
  {
    if samples != [] {
      ConstantSamples(samples[..|samples| - 1], price);
      assert price * |samples| == price * (|samples| - 1) + price;
    }
  }

  /** When every sampled price is the same, the fee is the tier itself. */
  lemma FlatPriceHasNoPremium(history: map<nat, int>, now: nat, baseFee: nat, price: int)
    requires price > 0 && DynamicFee(history, now, baseFee).Ok?
    requires forall s :: s in Collected(history, now / ORACLE_PERIOD_SECS, ORACLE_PERIODS) ==> s == price
    ensures DynamicFee(history, now, baseFee).value.fee == baseFee
  {
    FlatSamples(Collected(history, now / ORACLE_PERIOD_SECS, ORACLE_PERIODS), baseFee, price);
  }

  lemma FlatSamples(samples: seq<int>, baseFee: nat, price: int)
    requires price > 0 && FeeOf(samples, baseFee).Ok?
    requires forall s :: s in samples ==> s == price
    ensures FeeOf(samples, baseFee).value.fee == baseFee
  {
    hide TruncDiv, FloorSqrt, Sum, SquaredDeviations;
    forall i | 0 <= i < |samples|
      ensures samples[i] == price
    {
      assert samples[i] in samples;
    }
    ConstantSamples(samples, price);
    if |samples| >= 2 {
      DivUnique(price * |samples|, |samples|, price);
      MulNonNegative(price, |samples|);
      assert TruncDiv(Sum(samples), |samples|) == price;
      DivUnique(0, |samples|, 0);
      DivUnique(0, price, 0);
      assert FloorSqrt(0) == 0;
    }
  }

  // ---------------------------------------------------------------- what the fee measures

  /** The period i before the current one, or period 0 if there are not so many, recorded x. */
  predicate RecordedAt(history: map<nat, int>, current: nat, i: nat, x: int) {
    var period := if i <= current then current - i else 0;
    period in history && history[period] == x
  }

  function OffsetsWith(history: map<nat, int>, current: nat, n: nat, x: int): set<nat> {
    set i: nat | 0 <= i < n && RecordedAt(history, current, i, x)
  }

  /** The samples read are exactly those recorded for the last `n` periods, each as often as it was. */
  lemma {:induction false} CollectedIsLastPeriods(history: map<nat, int>, current: nat, n: nat, x: int)
    ensures multiset(Collected(history, current, n))[x] == |OffsetsWith(history, current, n, x)|
  {
    if n > 0 {
      hide RecordedAt, OffsetsWith, PeriodAt;
      CollectedIsLastPeriods(history, current, n - 1, x);
      OneMoreOffset(history, current, n, x);
    } else {
      assert OffsetsWith(history, current, 0, x) == {};
    }
  }

  lemma OneMoreOffset(history: map<nat, int>, current: nat, n: nat, x: int)
    requires n > 0
    ensures |OffsetsWith(history, current, n, x)| == |OffsetsWith(history, current, n - 1, x)|
      + (if PeriodAt(current, n - 1) in history && history[PeriodAt(current, n - 1)] == x then 1 else 0)
  {
    assert RecordedAt(history, current, n - 1, x)
      <==> PeriodAt(current, n - 1) in history && history[PeriodAt(current, n - 1)] == x;
    hide RecordedAt, PeriodAt;
    var before, after := OffsetsWith(history, current, n - 1, x), OffsetsWith(history, current, n, x);
    if RecordedAt(history, current, n - 1, x) {
      assert after == before + {n - 1};
    } else {
      assert after == before;
    }
  }

  function Squares(samples: seq<int>, m: int): seq<int> {
    seq(|samples|, i requires 0 <= i < |samples| => (samples[i] - m) * (samples[i] - m))
  }

  lemma {:induction false} DeviationsAreSquares(samples: seq<int>, m: int)
    ensures SquaredDeviations(samples, m) == Sum(Squares(samples, m))
  {
    if samples != [] {
      var n := |samples| - 1;
      DeviationsAreSquares(samples[..n], m);
      assert Squares(samples, m)[..n] == Squares(samples[..n], m);
    }
  }

  /** The mean of the samples, rounded down. */
  predicate IsMean(samples: seq<int>, m: int) {
    |samples| * m <= Sum(samples) < |samples| * (m + 1)
  }

  /** The root of the mean square of their distances from m, rounded down. */
  predicate IsDeviation(samples: seq<int>, m: int, r: int) {
    0 <= r && |samples| * (r * r) <= Sum(Squares(samples, m)) < |samples| * ((r + 1) * (r + 1))
  }

  /** The fee of any list of at least two samples with a positive mean: the tier, and a tenth of the standard
      deviation over the mean in basis points, at most fifty. The volatility is cut to 32 bits first. */
  lemma FeeIsDeviation(samples: seq<int>, baseFee: nat, m: int, r: int)
    requires |samples| >= 2 && m > 0 && IsMean(samples, m) && IsDeviation(samples, m, r)
    requires Fits(Sum(samples)) && Fits(Sum(Squares(samples, m)))
    ensures FeeOf(samples, baseFee)
         == Ok(Oracle(baseFee + Min(r * 10_000 / m % 0x1_0000_0000 / 10, 50), |samples|))
  {
    hide FloorSqrt, Sum, SquaredDeviations, TruncDiv, IsFloorSqrt;
    DeviationsAreSquares(samples, m);
    SquaredDeviationsPositive(samples, m);
    var n, d := |samples|, SquaredDeviations(samples, m);
    MulNonNegative(n, m);
    DivUnique(Sum(samples), n, m) by {
      assert n * m == m * n && n * (m + 1) == m * n + n;
    }
    VarianceRoot(d, n, r);
    assert VolatilityBps(samples, m) == r * 10_000 / m;
  }

  lemma VarianceRoot(d: int, n: int, r: int)
    requires d >= 0 && n > 0 && r >= 0 && n * (r * r) <= d < n * ((r + 1) * (r + 1))
    ensures d / n >= 0 && FloorSqrt(d / n) == r
  {
    DivNonNegative(d, n);
    FloorBetween(d, n, r * r, (r + 1) * (r + 1));
    FloorSqrtUnique(r, FloorSqrt(d / n), d / n);
  }

  lemma FloorBetween(d: int, n: int, a: int, b: int)
    requires n > 0 && n * a <= d < n * b
    ensures a <= d / n < b
  {
    assert n * a == a * n && n * b == b * n;
    DivAtLeast(d, n, a);
    DivAtLeast(d, n, b);
  }

  /** With fewer than two samples, or a mean below one, the fee is the tier. */
  lemma FeeOfFew(samples: seq<int>, baseFee: nat)
    requires Fits(Sum(samples)) && 0 <= Sum(samples) && (|samples| < 2 || Sum(samples) < |samples|)
    ensures FeeOf(samples, baseFee) == Ok(Oracle(baseFee, |samples|))
  {
    if |samples| >= 2 {
      DivUnique(Sum(samples), |samples|, 0);
    }
  }

  /** What a fee must be for its samples. */
  ghost predicate FeeFor(samples: seq<int>, baseFee: nat, fee: int) {
    if |samples| < 2 || Sum(samples) < |samples| then fee == baseFee
    else exists m, r :: m > 0 && IsMean(samples, m) && IsDeviation(samples, m, r)
           && fee == baseFee + Min(r * 10_000 / m % 0x1_0000_0000 / 10, 50)
  }

  /** An update sets the fee that the samples of the last 24 hours call for. */
  lemma DynamicFeeIs(history: map<nat, int>, now: nat, baseFee: nat)
    requires PositiveHistory(history) && DynamicFee(history, now, baseFee).Ok?
    ensures FeeFor(Collected(history, now / 3_600, 24), baseFee, DynamicFee(history, now, baseFee).value.fee)
  {
    hide FeeOf, Sum, Squares, Collected;
    var samples := Collected(history, now / 3_600, 24);
    CollectedAreSamples(history, now / 3_600, 24);
    SamplesSum(samples);
    FitsIfOk(samples, baseFee);
    if |samples| < 2 || Sum(samples) < |samples| {
      FeeOfFew(samples, baseFee);
    } else {
      var m := Sum(samples) / |samples|;
      DivBounds(Sum(samples), |samples|);
      DivAtLeast(Sum(samples), |samples|, 1);
      assert |samples| * m == m * |samples| && |samples| * (m + 1) == m * |samples| + |samples|;
      DeviationsAreSquares(samples, m);
      SquaredDeviationsPositive(samples, m);
      var r := RootOfMean(Sum(Squares(samples, m)), |samples|);
      FeeIsDeviation(samples, baseFee, m, r);
    }
  }

  lemma {:induction false} SamplesSum(samples: seq<int>)
    requires forall i :: 0 <= i < |samples| ==> samples[i] > 0
    ensures Sum(samples) >= 0
  {
    if samples != [] {
      SamplesSum(samples[..|samples| - 1]);
    }
  }

  lemma FitsIfOk(samples: seq<int>, baseFee: nat)
    requires FeeOf(samples, baseFee).Ok? && Sum(samples) >= 0
    ensures Fits(Sum(samples))
    ensures |samples| >= 2 && Sum(samples) >= |samples| ==> Fits(SquaredDeviations(samples, Sum(samples) / |samples|))
  {
    hide Sum, SquaredDeviations, VolatilityBps;
    if |samples| >= 2 && Sum(samples) >= |samples| {
      DivAtLeast(Sum(samples), |samples|, 1);
    }
  }

  lemma RootOfMean(d: int, n: int) returns (r: int)
    requires d >= 0 && n > 0
    ensures r >= 0 && n * (r * r) <= d < n * ((r + 1) * (r + 1))
  {
    DivNonNegative(d, n);
    r := FloorSqrt(d / n);
    FloorTimes(d, n, r * r, (r + 1) * (r + 1));
  }

  lemma FloorTimes(d: int, n: int, a: int, b: int)
    requires n > 0 && a <= d / n < b
    ensures n * a <= d < n * b
  {
    DivAtLeast(d, n, a);
    DivAtLeast(d, n, b);
    assert n * a == a * n && n * b == b * n;
  }
}
