/** One exact-input swap step between two square-root prices. */
module SwapMath {
  import opened Common
  import opened FixedPoint

  const FEE_DENOMINATOR: int := 10_000

  datatype SwapStep = SwapStep(amountIn: int, amountOut: int, feePaid: int, newPrice: int)

  /** A plain product computes the fee; every other product saturates. */
  function ComputeSwapStep(current: int, target: int, liquidity: int, amount: int, feeBps: nat): Checked<SwapStep>
    requires current >= 0 && target >= 0
  {
    if !Fits(amount * feeBps) then Overflow
    else
      var fee := TruncDiv(amount * feeBps, FEE_DENOMINATOR);
      var afterFee := Max(amount - fee, 0);
      Ok(if current > target then SellStep(current, target, liquidity, afterFee, fee)
         else BuyStep(current, target, liquidity, afterFee, fee))
  }

  /** Token A comes in and the price falls. */
  function SellStep(current: int, target: int, liquidity: int, afterFee: int, fee: int): SwapStep
    requires current > target >= 0
  {
    var maxIn :=
      if target == 0 then 0
      else TruncDiv(SatMul(TruncDiv(SatMul(liquidity, current - target), current), Q64), target);
    var newPrice := if afterFee >= maxIn then target else SellPrice(current, target, liquidity, afterFee);
    var amountIn := if afterFee >= maxIn then maxIn else afterFee;
    SwapStep(amountIn, TruncDiv(SatMul(liquidity, current - newPrice), Q64), fee, newPrice)
  }

  function SellPrice(current: int, target: int, liquidity: int, afterFee: int): int {
    var term := TruncDiv(SatMul(afterFee, current), Max(liquidity, 1));
    var den := SatAdd(term, Q64);
    Max(TruncDiv(SatMul(current, Q64), Max(den, 1)), target)
  }

  /** Token B comes in and the price rises. */
  function BuyStep(current: int, target: int, liquidity: int, afterFee: int, fee: int): SwapStep
    requires 0 <= current <= target
  {
    var maxIn := TruncDiv(SatMul(liquidity, target - current), Q64);
    var newPrice := if afterFee >= maxIn then target else BuyPrice(current, target, liquidity, afterFee);
    var amountIn := if afterFee >= maxIn then maxIn else afterFee;
    var amountOut :=
      if current <= 0 || newPrice <= 0 then 0
      else TruncDiv(SatMul(TruncDiv(SatMul(liquidity, newPrice - current), current), Q64), newPrice);
    SwapStep(amountIn, amountOut, fee, newPrice)
  }

  function BuyPrice(current: int, target: int, liquidity: int, afterFee: int): int {
    var moved := TruncDiv(SatMul(afterFee, Q64), Max(liquidity, 1));
    Min(SatAdd(current, moved), target)
  }

  // ---------------------------------------------------------------- bounds

  lemma SellPriceBetween(current: int, target: int, liquidity: int, afterFee: int)
    requires current > target >= 0 && liquidity >= 0 && afterFee >= 0 && current <= I128_MAX
    ensures target <= SellPrice(current, target, liquidity, afterFee) <= current
  {
    hide SatMul, TruncDiv, SatAdd;
    MulNonNegative(afterFee, current);
    QuotientAtMost(current, SatAdd(TruncDiv(SatMul(afterFee, current), Max(liquidity, 1)), Q64));
  }

  lemma QuotientAtMost(current: int, den: int)
    requires 0 <= current && Q64 <= den
    ensures 0 <= TruncDiv(SatMul(current, Q64), den) <= current
  {
    hide SatMul, TruncDiv;
    var p := SatMul(current, Q64);
    MulMonotone(Q64, den, current);
    DivMonotone(p, current * den, den);
    DivUnique(current * den, den, current);
  }

  lemma BuyPriceBetween(current: int, target: int, liquidity: int, afterFee: int)
    requires 0 <= current <= target <= I128_MAX && liquidity >= 0 && afterFee >= 0
    ensures current <= BuyPrice(current, target, liquidity, afterFee) <= target
  {
    hide SatMul, TruncDiv, SatAdd;
  }

  lemma FeeWithinInput(amount: int, feeBps: nat)
    requires amount >= 0 && feeBps <= FEE_DENOMINATOR
    ensures 0 <= TruncDiv(amount * feeBps, FEE_DENOMINATOR) <= amount
  {
    hide TruncDiv;
    MulNonNegative(amount, feeBps);
    MulMonotone(feeBps, FEE_DENOMINATOR, amount);
    DivMonotone(amount * feeBps, amount * FEE_DENOMINATOR, FEE_DENOMINATOR);
    DivUnique(amount * FEE_DENOMINATOR, FEE_DENOMINATOR, amount);
  }

  /** The fee is the given number of basis points of the whole input, rounded down, in either direction. */
  lemma FeeIsBasisPoints(current: int, target: int, liquidity: int, amount: int, feeBps: nat)
    requires current >= 0 && target >= 0 && amount >= 0
    requires ComputeSwapStep(current, target, liquidity, amount, feeBps).Ok?
    ensures var fee := ComputeSwapStep(current, target, liquidity, amount, feeBps).value.feePaid;
      fee * 10_000 <= amount * feeBps < (fee + 1) * 10_000
  {
    hide SatMul, SellPrice, BuyPrice;
    MulNonNegative(amount, feeBps);
    DivBounds(amount * feeBps, 10_000);
  }

  predicate Between(x: int, a: int, b: int) {
    a <= x <= b || b <= x <= a
  }

  /** A step never leaves the way to its target, never takes more than the input, and stops short
      of the target only when it used the input up: true for every liquidity, saturating or not. */
  lemma StepBounds(current: int, target: int, liquidity: int, amount: int, feeBps: nat)
    requires 0 <= current <= I128_MAX && 0 <= target <= I128_MAX
    requires liquidity >= 0 && amount >= 0 && feeBps <= FEE_DENOMINATOR
    requires ComputeSwapStep(current, target, liquidity, amount, feeBps).Ok?
    ensures var s := ComputeSwapStep(current, target, liquidity, amount, feeBps).value;
      && Between(s.newPrice, current, target)
      && s.amountIn >= 0 && s.amountOut >= 0
      && 0 <= s.feePaid <= amount
      && s.amountIn + s.feePaid <= amount
      && (s.newPrice == target || s.amountIn + s.feePaid == amount)
  {
    hide SatMul, TruncDiv, SellPrice, BuyPrice;
    FeeWithinInput(amount, feeBps);
    var fee := TruncDiv(amount * feeBps, FEE_DENOMINATOR);
    if current > target {
      SellPriceBetween(current, target, liquidity, amount - fee);
    } else {
      BuyPriceBetween(current, target, liquidity, amount - fee);
    }
  }

  // ---------------------------------------------------------------- token B potential

  /** Token B the pool receives in one step; negative when it pays out. */
  function NetB(current: int, target: int, step: SwapStep): int {
    if current > target then -step.amountOut else step.amountIn
  }

  /** A falling price never costs the pool more token B than the liquidity curve says. */
  lemma SellPotential(current: int, target: int, liquidity: int, afterFee: int, fee: int)
    requires I128_MAX >= current > target >= 0 && liquidity >= 0 && afterFee >= 0
    ensures var s := SellStep(current, target, liquidity, afterFee, fee);
      Q64 * -s.amountOut >= liquidity * (s.newPrice - current)
  {
    hide SatMul, TruncDiv, SellPrice;
    SellPriceBetween(current, target, liquidity, afterFee);
    var s := SellStep(current, target, liquidity, afterFee, fee);
    var d := current - s.newPrice;
    MulNonNegative(liquidity, d);
    DivBounds(SatMul(liquidity, d), Q64);
    assert liquidity * (s.newPrice - current) == -(liquidity * d);
  }

  /** The way up is so long for the liquidity that its product saturates, and the amount uses the
      clamped maximum up. */
  predicate Clamped(current: int, target: int, liquidity: int, afterFee: int) {
    liquidity * (target - current) > I128_MAX && afterFee >= I128_MAX / Q64
  }

  /** A rising price brings in what the curve says, up to one unit lost to the floor, exactly when the
      step is not clamped. */
  lemma BuyPotential(current: int, target: int, liquidity: int, afterFee: int, fee: int)
    requires 0 <= current <= target <= I128_MAX && liquidity >= 0 && afterFee >= 0
    ensures var s := BuyStep(current, target, liquidity, afterFee, fee);
      Q64 * s.amountIn >= liquidity * (s.newPrice - current) - (Q64 - 1)
      <==> !Clamped(current, target, liquidity, afterFee)
  {
    hide SatMul, TruncDiv, BuyPrice;
    var s := BuyStep(current, target, liquidity, afterFee, fee);
    var exact := liquidity * (target - current);
    MulNonNegative(liquidity, target - current);
    var maxIn := TruncDiv(SatMul(liquidity, target - current), Q64);
    if exact <= I128_MAX {
      DivBounds(exact, Q64);
    } else {
      assert maxIn == I128_MAX / Q64;
    }
    if afterFee < maxIn {
      PartialBuy(current, target, liquidity, afterFee);
    }
  }

  lemma PartialBuy(current: int, target: int, liquidity: int, afterFee: int)
    requires 0 <= current <= target <= I128_MAX && liquidity >= 0 && afterFee >= 0
    ensures liquidity * (BuyPrice(current, target, liquidity, afterFee) - current) <= Q64 * afterFee
  {
    hide SatMul, TruncDiv, SatAdd;
    var l := Max(liquidity, 1);
    var moved := TruncDiv(SatMul(afterFee, Q64), l);
    DivBounds(SatMul(afterFee, Q64), l);
    var rise := BuyPrice(current, target, liquidity, afterFee) - current;
    assert rise <= moved;
    MulMonotone(rise, moved, liquidity);
    assert moved * l <= afterFee * Q64;
    if liquidity == 0 {
      assert liquidity * rise == 0;
    } else {
      assert rise * liquidity == liquidity * rise;
    }
  }

  /** In either direction, for every step that does not abort: the pool's token B keeps up with the
      price along the liquidity curve exactly when the step is not clamped. */
  lemma StepPotential(current: int, target: int, liquidity: int, amount: int, feeBps: nat)
    requires 0 <= current <= I128_MAX && 0 <= target <= I128_MAX
    requires liquidity >= 0 && amount >= 0 && feeBps <= FEE_DENOMINATOR
    requires ComputeSwapStep(current, target, liquidity, amount, feeBps).Ok?
    ensures var s := ComputeSwapStep(current, target, liquidity, amount, feeBps).value;
      Q64 * NetB(current, target, s) >= liquidity * (s.newPrice - current) - (Q64 - 1)
      <==> !Clamped(current, target, liquidity, amount - amount * feeBps / FEE_DENOMINATOR)
  {
    hide SatMul, TruncDiv, SellStep, BuyStep;
    FeeWithinInput(amount, feeBps);
    MulNonNegative(amount, feeBps);
    var fee := TruncDiv(amount * feeBps, FEE_DENOMINATOR);
    if current > target {
      SellPotential(current, target, liquidity, amount - fee, fee);
      FallingIsNotClamped(current, target, liquidity);
    } else {
      BuyPotential(current, target, liquidity, amount - fee, fee);
    }
  }

  lemma FallingIsNotClamped(current: int, target: int, liquidity: int)
    requires current > target && liquidity >= 0
    ensures liquidity * (target - current) <= I128_MAX
  {
    MulNonNegative(liquidity, current - target);
    assert liquidity * (target - current) == -(liquidity * (current - target));
  }

  // ---------------------------------------------------------------- the payout of a rising price

  /** The way up for the amount is worth less, at the liquidity, than the price itself. */
  predicate Slight(current: int, target: int, liquidity: int, afterFee: int) {
    || liquidity * (target - current) < current
    || (&& afterFee < SatMul(liquidity, target - current) / Q64
        && liquidity * Min(SatMul(afterFee, Q64) / Max(liquidity, 1), target - current) < current)
  }

  /** Below the price of tick 0 a rising price pays nothing out exactly when its way is slight, and that can
      be told from the input. */
  lemma PaysNothingIff(current: int, target: int, liquidity: int, afterFee: int, fee: int)
    requires 0 < current <= target < Q64 && liquidity >= 0 && afterFee >= 0
    ensures var s := BuyStep(current, target, liquidity, afterFee, fee);
      && s.amountOut >= 0 && current <= s.newPrice <= target
      && (s.amountOut == 0 <==> liquidity * (s.newPrice - current) < current)
      && (s.amountOut == 0 <==> Slight(current, target, liquidity, afterFee))
  {
    hide SatMul, TruncDiv, BuyPrice, Slight;
    BuyPriceBetween(current, target, liquidity, afterFee);
    var s := BuyStep(current, target, liquidity, afterFee, fee);
    PayoutIsZeroIff(liquidity, s.newPrice - current, current, s.newPrice);
    SlightIff(current, target, liquidity, afterFee, fee);
  }

  lemma PayoutIsZeroIff(liquidity: int, d: int, p: int, q: int)
    requires liquidity >= 0 && d >= 0 && 0 < p <= q < Q64
    ensures TruncDiv(SatMul(TruncDiv(SatMul(liquidity, d), p), Q64), q) == 0 <==> liquidity * d < p
    ensures TruncDiv(SatMul(TruncDiv(SatMul(liquidity, d), p), Q64), q) >= 0
  {
    hide SatMul, TruncDiv;
    MulNonNegative(liquidity, d);
    var x := SatMul(liquidity, d);
    var t := x / p;
    DivNonNegative(x, p);
    DivAtLeast(x, p, 1);
    assert t == 0 <==> liquidity * d < p;
    var y := SatMul(t, Q64);
    DivNonNegative(y, q);
    DivAtLeast(y, q, 1);
    assert t == 0 ==> y == 0;
    assert t >= 1 ==> t * Q64 >= Q64;
  }

  /** The way of the step in terms of its input. */
  lemma SlightIff(current: int, target: int, liquidity: int, afterFee: int, fee: int)
    requires 0 < current <= target < Q64 && liquidity >= 0 && afterFee >= 0
    ensures var s := BuyStep(current, target, liquidity, afterFee, fee);
      liquidity * (s.newPrice - current) < current <==> Slight(current, target, liquidity, afterFee)
  {
    hide SatMul, TruncDiv;
    var maxIn := SatMul(liquidity, target - current) / Q64;
    MulNonNegative(liquidity, target - current);
    MulNonNegative(afterFee, Q64);
    if afterFee < maxIn {
      var moved := SatMul(afterFee, Q64) / Max(liquidity, 1);
      DivNonNegative(SatMul(afterFee, Q64), Max(liquidity, 1));
      var rise := BuyPrice(current, target, liquidity, afterFee) - current;
      assert rise == Min(moved, target - current);
      MulMonotone(rise, target - current, liquidity);
      assert rise * liquidity == liquidity * rise && (target - current) * liquidity == liquidity * (target - current);
    }
  }

  // ---------------------------------------------------------------- token A along the curve

  /** Floor of liquidity * d * Q64 / (p * q), taken in two divisions as the swap takes it. */
  function AlongCurve(liquidity: int, d: int, p: int, q: int): int
    requires p > 0 && q > 0
  {
    TruncDiv(SatMul(TruncDiv(SatMul(liquidity, d), p), Q64), q)
  }

  lemma FloorsBelow(x: int, y: int, p: int, q: int)
    requires p > 0 && q > 0 && x >= 0 && 0 <= y <= x / p * Q64
    ensures 0 <= y / q && y / q * q * p <= x * Q64
  {
    var t, a := x / p, y / q;
    DivBounds(x, p);
    DivBounds(y, q);
    DivNonNegative(y, q);
    MulMonotone(a * q, t * Q64, p);
    Regroup(t, p);
    MulMonotone(t * p, x, Q64);
  }

  lemma Regroup(t: int, p: int)
    ensures t * Q64 * p == t * p * Q64
  {
  }

  lemma FloorsAbove(x: int, p: int, q: int)
    requires x >= 0 && p > 0 && q > 0
    ensures x * Q64 < (x / p * Q64 / q + 1) * q * p + Q64 * p
  {
    var t := x / p;
    var a := t * Q64 / q;
    DivBounds(x, p);
    DivBounds(t * Q64, q);
    assert t * Q64 <= (a + 1) * q;
    MulMonotone(t * Q64, (a + 1) * q, p);
    Regroup(t, p);
    assert x < t * p + p;
  }

  /** Two floors and two saturating products never exceed the exact amount, and without saturation
      they fall short of it by less than one unit and one floor. */
  lemma AlongCurveBounds(liquidity: int, d: int, p: int, q: int)
    requires liquidity >= 0 && d >= 0 && p > 0 && q > 0
    ensures var a := AlongCurve(liquidity, d, p, q);
      && a >= 0
      && a * q * p <= liquidity * d * Q64
      && (Fits(liquidity * d) && Fits(liquidity * d / p * Q64) ==>
            liquidity * d * Q64 < (a + 1) * q * p + Q64 * p)
  {
    hide SatMul, TruncDiv;
    MulNonNegative(liquidity, d);
    var exact := liquidity * d;
    var x := SatMul(liquidity, d);
    DivNonNegative(x, p);
    var y := SatMul(x / p, Q64);
    assert 0 <= x <= exact && 0 <= y <= x / p * Q64;
    FloorsBelow(x, y, p, q);
    assert AlongCurve(liquidity, d, p, q) == y / q;
    if Fits(exact) && Fits(exact / p * Q64) {
      FloorsAbove(exact, p, q);
    }
  }

  /** A rising price pays out token A along the curve: never more, and without saturation no less but
      for the rounding. */
  lemma BuyPaysAlongCurve(current: int, target: int, liquidity: int, afterFee: int, fee: int)
    requires 0 < current <= target <= I128_MAX && liquidity >= 0 && afterFee >= 0
    ensures var s := BuyStep(current, target, liquidity, afterFee, fee);
      var d := s.newPrice - current;
      && d >= 0
      && s.amountOut * s.newPrice * current <= liquidity * d * Q64
      && (Fits(liquidity * d) && Fits(liquidity * d / current * Q64) ==>
            liquidity * d * Q64 < (s.amountOut + 1) * s.newPrice * current + Q64 * current)
  {
    hide SatMul, TruncDiv, BuyPrice;
    BuyPriceBetween(current, target, liquidity, afterFee);
    var s := BuyStep(current, target, liquidity, afterFee, fee);
    AlongCurveBounds(liquidity, s.newPrice - current, current, s.newPrice);
    assert s.amountOut == AlongCurve(liquidity, s.newPrice - current, current, s.newPrice);
  }

  /** A falling price that reaches its target takes token A along the curve, and it reaches the target
      whenever what is left after the fee pays for the way there. */
  lemma SellTakesAlongCurve(current: int, target: int, liquidity: int, afterFee: int, fee: int)
    requires I128_MAX >= current > target > 0 && liquidity >= 0 && afterFee >= 0
    ensures var s := SellStep(current, target, liquidity, afterFee, fee);
      var d := current - target;
      && (liquidity * d * Q64 <= afterFee * target * current ==> s.newPrice == target)
      && (s.amountIn < afterFee ==> s.newPrice == target)
      && s.amountIn * target * current <= liquidity * d * Q64
      && (s.amountIn < afterFee && Fits(liquidity * d) && Fits(liquidity * d / current * Q64) ==>
            liquidity * d * Q64 < (s.amountIn + 1) * target * current + Q64 * current)
  {
    hide SatMul, TruncDiv, SellPrice;
    var d := current - target;
    AlongCurveBounds(liquidity, d, current, target);
    var maxIn := AlongCurve(liquidity, d, current, target);
    var s := SellStep(current, target, liquidity, afterFee, fee);
    assert s.amountIn == (if afterFee >= maxIn then maxIn else afterFee);
    hide AlongCurve, SellStep;
    if afterFee < maxIn {
      StrictlyLess(afterFee, maxIn, target, current);
    }
  }

  lemma StrictlyLess(a: int, b: int, p: int, q: int)
    requires a < b && p > 0 && q > 0
    ensures a * p * q < b * p * q
  {
    MulMonotone(a + 1, b, p);
    assert a * p < b * p;
    MulMonotone(a * p + 1, b * p, q);
  }

  // ---------------------------------------------------------------- what a step pays and where it ends

  /** Floor of x / d where x fits, and of the largest number otherwise. */
  ghost predicate IsFloor(q: int, x: int, d: int) {
    q * d <= Min(x, I128_MAX) < (q + 1) * d
  }

  lemma SaturatedFloor(a: int, b: int, d: int)
    requires a >= 0 && b >= 0 && d > 0
    ensures IsFloor(TruncDiv(SatMul(a, b), d), a * b, d) && TruncDiv(SatMul(a, b), d) >= 0
  {
    hide SatMul, TruncDiv;
    MulNonNegative(a, b);
    DivBounds(SatMul(a, b), d);
    assert SatMul(a, b) == Min(a * b, I128_MAX);
  }

  /** A sale of token A pays out exactly the floor of the curve's token B for the fall of the price, or, when
      the product saturates, the floor of the largest number. */
  lemma SellPaysAlongCurve(current: int, target: int, liquidity: int, afterFee: int, fee: int)
    requires I128_MAX >= current > target >= 0 && liquidity >= 0 && afterFee >= 0
    ensures var s := SellStep(current, target, liquidity, afterFee, fee);
      && s.newPrice <= current
      && IsFloor(s.amountOut, liquidity * (current - s.newPrice), Q64)
  {
    hide SatMul, TruncDiv, SellPrice;
    SellPriceBetween(current, target, liquidity, afterFee);
    var s := SellStep(current, target, liquidity, afterFee, fee);
    SaturatedFloor(liquidity, current - s.newPrice, Q64);
  }

  /** From prices of 2^63 on, which is wherever the table reaches, the product of the price and 2^64
      saturates: a sale ends at its target, however little is sold. */
  lemma SaleReachesTarget(current: int, target: int, liquidity: int, afterFee: int, fee: int)
    requires I128_MAX >= current > target >= 0x8000_0000_0000_0000 && liquidity >= 0 && afterFee >= 0
    ensures SellStep(current, target, liquidity, afterFee, fee).newPrice == target
  {
    hide SatMul, TruncDiv, SatAdd;
    var term := TruncDiv(SatMul(afterFee, current), Max(liquidity, 1));
    MulNonNegative(afterFee, current);
    var den := SatAdd(term, Q64);
    assert SatMul(current, Q64) == I128_MAX;
    DivBounds(I128_MAX, den);
    if I128_MAX / den > target {
      MulMonotone(target + 1, I128_MAX / den, Q64);
      MulMonotone(Q64, den, I128_MAX / den);
      assert false;
    }
  }

  /** Below that a sale that stops for lack of input ends where the input takes it along the curve, up to the
      rounding of two divisions, but never past the target. */
  lemma SellEndsOnCurve(current: int, target: int, liquidity: int, afterFee: int)
    requires I128_MAX >= current > target >= 0 && liquidity > 0 && afterFee >= 0
    requires Fits(afterFee * current) && Fits(current * Q64) && Fits(afterFee * current / liquidity + Q64)
    ensures var n, push := SellPrice(current, target, liquidity, afterFee), afterFee * current + liquidity * Q64;
      && current * Q64 * liquidity < (n + 1) * push
      && (n > target ==> n * push <= current * Q64 * liquidity + n * liquidity)
  {
    MulNonNegative(afterFee, current);
    DivNonNegative(afterFee * current, liquidity);
    SellPriceFits(current, target, liquidity, afterFee);
    SellEnds(afterFee * current, current * Q64, liquidity, target, SellPrice(current, target, liquidity, afterFee));
  }

  lemma SellEnds(a: int, x: int, l: int, target: int, n: int)
    requires a >= 0 && x >= 0 && l > 0 && a / l >= 0 && n == Max(x / (a / l + Q64), target)
    ensures x * l < (n + 1) * (a + l * Q64)
    ensures n > target ==> n * (a + l * Q64) <= x * l + n * l
  {
    var den := a / l + Q64;
    DivNonNegative(x, den);
    Pushed(a, l);
    DivBounds(x, den);
    EndsBetween(x, l, den, a + l * Q64, x / den, n);
  }

  lemma SellPriceFits(current: int, target: int, liquidity: int, afterFee: int)
    requires current >= 0 && liquidity > 0 && afterFee >= 0 && afterFee * current >= 0
    requires Fits(afterFee * current) && Fits(current * Q64) && Fits(afterFee * current / liquidity + Q64)
    requires afterFee * current / liquidity >= 0
    ensures SellPrice(current, target, liquidity, afterFee)
         == Max(current * Q64 / (afterFee * current / liquidity + Q64), target)
  {
    hide SatMul, TruncDiv, SatAdd;
  }

  lemma Pushed(a: int, l: int)
    requires l > 0
    ensures var den := a / l + Q64; den * l <= a + l * Q64 <= den * l + l
  {
    DivBounds(a, l);
    var q := a / l;
    assert (q + Q64) * l == q * l + Q64 * l;
  }

  lemma EndsBetween(x: int, l: int, den: int, push: int, q: int, n: int)
    requires q * den <= x < (q + 1) * den && den * l <= push <= den * l + l
    requires 0 <= q <= n && l > 0 && den > 0
    ensures x * l < (n + 1) * push
    ensures n == q ==> n * push <= x * l + n * l
  {
    MulMonotone(q + 1, n + 1, den);
    StrictProduct(x, n + 1, den, l, push);
    if n == q {
      LooseProduct(x, n, den, l, push);
    }
  }

  lemma StrictProduct(x: int, k: int, den: int, l: int, push: int)
    requires x < k * den && den * l <= push && l > 0 && k >= 0
    ensures x * l < k * push
  {
    var y := k * den;
    MulMonotone(x + 1, y, l);
    assert (x + 1) * l == x * l + l;
    Associates(k, den, l);
    MulMonotone(den * l, push, k);
    Commutes(den * l, k);
    Commutes(push, k);
  }

  lemma LooseProduct(x: int, k: int, den: int, l: int, push: int)
    requires k * den <= x && push <= den * l + l && l > 0 && k >= 0
    ensures k * push <= x * l + k * l
  {
    MulMonotone(k * den, x, l);
    Associates(k, den, l);
    var y := den * l;
    MulMonotone(push, y + l, k);
    Commutes(push, k);
    Commutes(y, k);
    Commutes(l, k);
    assert (y + l) * k == y * k + l * k;
  }

  lemma Associates(a: int, b: int, c: int)
    ensures a * b * c == a * (b * c)
  {
  }

  lemma Commutes(a: int, b: int)
    ensures a * b == b * a
  {
  }

  /** A purchase takes the floor of the curve's token B for the whole way if that is left after the fee, and
      otherwise what is left, which then moves the price by the floor of its worth along the liquidity. */
  lemma BuyTakesAlongCurve(current: int, target: int, liquidity: int, afterFee: int, fee: int)
    requires 0 <= current <= target <= I128_MAX && liquidity >= 0 && afterFee >= 0
    ensures var s := BuyStep(current, target, liquidity, afterFee, fee);
      && (s.newPrice < target ==>
            s.amountIn == afterFee && IsFloor(s.newPrice - current, afterFee * Q64, Max(liquidity, 1)))
      && (s.amountIn < afterFee ==>
            s.newPrice == target && IsFloor(s.amountIn, liquidity * (target - current), Q64))
      && s.amountIn * Q64 <= liquidity * (target - current)
      && s.amountIn <= afterFee
  {
    hide SatMul, TruncDiv;
    MulNonNegative(liquidity, target - current);
    MulNonNegative(afterFee, Q64);
    SaturatedFloor(liquidity, target - current, Q64);
    SaturatedFloor(afterFee, Q64, Max(liquidity, 1));
    var maxIn := TruncDiv(SatMul(liquidity, target - current), Q64);
    var s := BuyStep(current, target, liquidity, afterFee, fee);
    if afterFee < maxIn {
      MulMonotone(afterFee, maxIn, Q64);
    }
  }
}
