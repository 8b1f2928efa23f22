/** When the calls of the pool go through. */
module AmmAcceptance {
  import opened Common
  import opened FixedPoint
  import opened TickMap
  import opened SwapMath
  import opened IlHedge
  import opened Amm
  import opened AmmEffects
  import AmmPayments
  import AmmRuns
  import LiquidityMath
  import Fees
  import Tokens = Ledger

  /** The growth of a range since a checkpoint can be credited. */
  predicate CreditFits(liquidity: int, growth: int, owed: int) {
    growth > 0 ==> Fits(liquidity * growth) && Fits(owed + liquidity * growth / Q64)
  }

  lemma CreditFitsIff(liquidity: int, now: int, last: int, owed: int)
    requires liquidity > 0
    ensures AccrualFits(liquidity, now, last, owed) <==> CreditFits(liquidity, now - last, owed)
    ensures Accrual(liquidity, now, last) == if now > last then liquidity * (now - last) / Q64 else 0
  {
    hide TruncDiv;
    if now > last {
      MulNonNegative(liquidity, now - last);
    }
  }

  /** Both tokens' growth since the position's checkpoints can be credited. */
  predicate Creditable(s: State, p: Position) {
    && CreditFits(p.liquidity, InsideNow(s, p, true) - p.insideLastA, p.owedA)
    && CreditFits(p.liquidity, InsideNow(s, p, false) - p.insideLastB, p.owedB)
  }

  /** What a collection pays: what is owed and the floor of the growth since, where it grew. */
  function Due(liquidity: int, growth: int, owed: int): int {
    owed + (if growth > 0 then liquidity * growth / Q64 else 0)
  }

  /** A collection goes through exactly for the owner of a stored position when the credit fits and the contract holds
      what is due. */
  lemma CollectIsAcceptedIff(s: State, c: Call)
    requires Valid(s) && c.CollectFees?
    ensures DoCollect(s, c).Done? <==>
      && c.positionId in s.positions
      && var p := s.positions[c.positionId];
      && p.owner == c.caller && Creditable(s, p)
      && (var a := Due(p.liquidity, InsideNow(s, p, true) - p.insideLastA, p.owedA);
          a > 0 ==> a <= Tokens.BalanceOf(s.tokensA, CONTRACT))
      && (var b := Due(p.liquidity, InsideNow(s, p, false) - p.insideLastB, p.owedB);
          b > 0 ==> b <= Tokens.BalanceOf(s.tokensB, CONTRACT))
    ensures DoCollect(s, c).Done? ==>
      var p, r := s.positions[c.positionId], DoCollect(s, c).receipt;
      && r.Collected?
      && r.amountA == Due(p.liquidity, InsideNow(s, p, true) - p.insideLastA, p.owedA)
      && r.amountB == Due(p.liquidity, InsideNow(s, p, false) - p.insideLastB, p.owedB)
  {
    hide ValidPool, Fees.PositiveHistory, InsideNow, Accrual, AccrualFits, CreditFits;
    if c.positionId in s.positions {
      var p := s.positions[c.positionId];
      CreditFitsIff(p.liquidity, InsideNow(s, p, true), p.insideLastA, p.owedA);
      CreditFitsIff(p.liquidity, InsideNow(s, p, false), p.insideLastB, p.owedB);
    }
  }

  /** A withdrawal goes through exactly for the owner, a positive part of the position's liquidity, amounts of at least
      the minimum, sums and products that fit, and a contract that holds what is paid with the hedge release. */
  lemma RemoveIsAcceptedIff(s: State, c: Call)
    requires Valid(s) && c.RemoveLiquidity?
    ensures DoRemove(s, c).Done? <==>
      && c.positionId in s.positions
      && var p := s.positions[c.positionId];
      && p.owner == c.caller && 0 < c.liquidity <= p.liquidity && Creditable(s, p)
      && Supported(p.tickLower) && Supported(p.tickUpper)
      && var amounts := LiquidityMath.AmountsForLiquidity(
           c.liquidity, PriceAt(p.tickLower), PriceAt(p.tickUpper), s.pool.sqrtPrice);
      && amounts.Ok? && c.minA <= amounts.value.0 && c.minB <= amounts.value.1
      && Pays(s, c, p, amounts.value.0, amounts.value.1)
  {
    hide ValidPool, Fees.PositiveHistory, InsideNow, Accrual, AccrualFits, CreditFits, PriceAt,
      LiquidityMath.AmountsForLiquidity, HedgeRelease, Deactivate, Without;
    if c.positionId in s.positions {
      var p := s.positions[c.positionId];
      CreditFitsIff(p.liquidity, InsideNow(s, p, true), p.insideLastA, p.owedA);
      CreditFitsIff(p.liquidity, InsideNow(s, p, false), p.insideLastB, p.owedB);
    }
  }

  /** The release can be computed and the contract holds it with the amounts. */
  predicate Pays(s: State, c: Call, p: Position, a: int, b: int)
    requires c.RemoveLiquidity?
  {
    var sumA := a + HedgeRelease(s.pool.ilReserveA, c.liquidity, p.liquidity);
    var sumB := b + HedgeRelease(s.pool.ilReserveB, c.liquidity, p.liquidity);
    && Fits(s.pool.ilReserveA * c.liquidity) && Fits(s.pool.ilReserveB * c.liquidity) && Fits(sumA) && Fits(sumB)
    && (sumA > 0 ==> sumA <= Tokens.BalanceOf(s.tokensA, CONTRACT))
    && (sumB > 0 ==> sumB <= Tokens.BalanceOf(s.tokensB, CONTRACT))
  }

  /** A deposit by anyone but the contract goes through exactly in an open pool, for a range of supported ticks in order,
      an offer that is positive in one token at least and buys liquidity, amounts of at least the minimum, sums and
      products that fit, and a caller who holds the amounts. */
  lemma AddIsAcceptedIff(s: State, now: nat, c: Call)
    requires Valid(s) && c.AddLiquidity? && c.caller != CONTRACT
    ensures DoAdd(s, now, c).Done? <==>
      && !s.paused && c.tickLower < c.tickUpper && (c.desiredA > 0 || c.desiredB > 0)
      && Supported(c.tickLower) && Supported(c.tickUpper)
      && var lower, upper, p := PriceAt(c.tickLower), PriceAt(c.tickUpper), s.pool.sqrtPrice;
      var bought := LiquidityMath.LiquidityFromAmounts(c.desiredA, c.desiredB, lower, upper, p);
      && bought.Ok? && bought.value > 0
      && var amounts := LiquidityMath.AmountsForLiquidity(bought.value, lower, upper, p);
      && amounts.Ok? && c.minA <= amounts.value.0 && c.minB <= amounts.value.1
      && Takes(s, c, bought.value, amounts.value.0, amounts.value.1)
  {
    hide PriceAt, TickAt, LiquidityMath.AmountsForLiquidity, LiquidityMath.LiquidityFromAmounts, EstimateIlBps,
      HedgeReserve, Fees.PositiveHistory, ValidPosition, NewPosition, Tokens.Transfer;
    if c.tickLower < c.tickUpper && Supported(c.tickLower) && Supported(c.tickUpper) {
      PriceRange(c.tickLower);
      PriceRange(c.tickUpper);
      var lower, upper := PriceAt(c.tickLower), PriceAt(c.tickUpper);
      if LiquidityMath.LiquidityFromAmounts(c.desiredA, c.desiredB, lower, upper, s.pool.sqrtPrice).Ok? {
        LiquidityMath.DepositWithinOffer(c.desiredA, c.desiredB, lower, upper, s.pool.sqrtPrice);
        var l := LiquidityMath.LiquidityFromAmounts(c.desiredA, c.desiredB, lower, upper, s.pool.sqrtPrice).value;
        var (a, b) := LiquidityMath.AmountsForLiquidity(l, lower, upper, s.pool.sqrtPrice).value;
        Tokens.TransferMoves(s.tokensA, c.caller, CONTRACT, a);
        Tokens.TransferMoves(s.tokensB, c.caller, CONTRACT, b);
      }
    }
  }

  /** The pool's liquidity and reserves have room for the deposit, and the caller holds it. */
  predicate Takes(s: State, c: Call, liquidity: int, a: int, b: int)
    requires c.AddLiquidity?
  {
    var active := c.tickLower <= s.pool.currentTick < c.tickUpper;
    var (lockedA, lockedB) := HedgeReserve(EstimateIlBps(c.tickLower, c.tickUpper, s.pool.sqrtPrice), a, b);
    && (a == 0 || a <= Tokens.BalanceOf(s.tokensA, c.caller))
    && (b == 0 || b <= Tokens.BalanceOf(s.tokensB, c.caller))
    && (if active then Fits(s.pool.liquidity + liquidity) && Fits(Max(s.pool.activeLiquidity + liquidity, 0))
        else Fits(Max(s.pool.activeLiquidity, 0)))
    && Fits(a * 500) && Fits(b * 500)
    && Fits(s.pool.ilReserveA + lockedA) && Fits(s.pool.ilReserveB + lockedB)
  }

  /** A swap by anyone but the contract goes through exactly in an open pool with liquidity, for a positive input, a
      payout of at least the minimum, sums and products that fit, and two sides that hold what they pay. */
  lemma SwapIsAcceptedIff(s: State, now: nat, c: Call)
    requires Valid(s) && c.Swap? && c.caller != CONTRACT
    ensures DoSwap(s, now, c).Done? <==>
      && !s.paused && c.amountIn > 0 && s.pool.liquidity > 0
      && var computed := ComputeSwapStep(s.pool.sqrtPrice, TargetPrice(s.pool, c.zeroForOne), s.pool.liquidity,
                                         c.amountIn, s.pool.dynamicFeeBps);
      && computed.Ok? && computed.value.amountOut >= c.minAmountOut
      && Fits(computed.value.feePaid * Q64) && Fits(s.pool.totalVolume + computed.value.amountIn)
      && Fits(GrowthGlobal(s.pool, c.zeroForOne) + computed.value.feePaid * Q64 / s.pool.liquidity)
      && computed.value.amountIn <= Tokens.BalanceOf(AmmPayments.TokensOf(s, c.zeroForOne), c.caller)
      && computed.value.amountOut <= Tokens.BalanceOf(AmmPayments.TokensOf(s, !c.zeroForOne), CONTRACT)
    ensures var computed := ComputeSwapStep(s.pool.sqrtPrice, TargetPrice(s.pool, c.zeroForOne), s.pool.liquidity,
                                            c.amountIn, s.pool.dynamicFeeBps);
      computed.Ok? <==> Fits(c.amountIn * s.pool.dynamicFeeBps)
  {
    hide ComputeSwapStep, TargetPrice, TickAt, Fees.PositiveHistory, ValidPosition, MovedPool, MovedOutside;
    StepAborts(s.pool.sqrtPrice, TargetPrice(s.pool, c.zeroForOne), s.pool.liquidity, c.amountIn, s.pool.dynamicFeeBps);
    if c.amountIn > 0 && Fits(c.amountIn * s.pool.dynamicFeeBps) {
      SwapPrice(s, c);
    }
  }

  lemma StepAborts(current: int, target: int, liquidity: int, amount: int, feeBps: nat)
    requires current >= 0 && target >= 0
    ensures ComputeSwapStep(current, target, liquidity, amount, feeBps).Ok? <==> Fits(amount * feeBps)
  {
    hide SatMul, TruncDiv, SellStep, BuyStep;
  }

  /** An update is refused only when a sum over the samples overflows. */
  lemma UpdateIsAcceptedIff(s: State, now: nat)
    requires Valid(s)
    ensures var samples := Fees.Collected(s.samples, now / 3_600, 24);
      DoUpdateFee(s, now).Done? <==>
        && Fits(Sum(samples))
        && (|samples| >= 2 && Sum(samples) >= |samples| ==>
              Fits(Sum(Fees.Squares(samples, Sum(samples) / |samples|))))
  {
    hide Fees.Collected, Sum, Fees.Squares, Fees.SquaredDeviations, Fees.VolatilityBps, ValidPool, ValidPosition;
    var samples := Fees.Collected(s.samples, now / 3_600, 24);
    Fees.CollectedAreSamples(s.samples, now / 3_600, 24);
    Fees.SamplesSum(samples);
    if |samples| >= 2 {
      DivAtLeast(Sum(samples), |samples|, 1);
      DivNonNegative(Sum(samples), |samples|);
      Fees.DeviationsAreSquares(samples, Sum(samples) / |samples|);
    }
  }
}
