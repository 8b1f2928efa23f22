/** The constant-time fee accumulators refine a naive ledger that remembers, for every swap, the
    tick it ended at and the fee growth it brought. */
module FeeLedger {
  import opened Common
  import opened FixedPoint
  import opened TickMap
  import opened SwapMath
  import opened Amm
  import Tokens = Ledger
  import LiquidityMath
  import Fees
  import opened IlHedge

  /** Fee growth a call brings for one token: only a successful swap paying in that token does. */
  function Increment(s: State, e: TimedCall, isA: bool): int
    requires Valid(s)
  {
    if e.call.Swap? && e.call.zeroForOne == isA && Execute(s, e.now, e.call).Done? then
      FeeIncrement(Execute(s, e.now, e.call).receipt.feePaid, s.pool.liquidity)
    else 0
  }

  /** The naive ledger: the sum of the increments of the calls after which the tick was in range. */
  function Ledger(s: State, calls: seq<TimedCall>, lower: int, upper: int, isA: bool): int
    requires Valid(s)
    decreases |calls|
  {
    hide Valid, Run, Increment, Step;
    if calls == [] then 0
    else
      var last, before := calls[|calls| - 1], Run(s, calls[..|calls| - 1]);
      Ledger(s, calls[..|calls| - 1], lower, upper, isA)
        + (if lower <= Step(before, last.now, last.call).pool.currentTick < upper then
             Increment(before, last, isA)
           else 0)
  }

  // ---------------------------------------------------------------- one swap

  /** A price between the current one and the target of a swap belongs to the current tick or to
      the next one in the direction of the swap. */
  lemma TickOnTheWay(pool: PoolState, zeroForOne: bool, newPrice: int)
    requires ValidPool(pool)
    requires Between(newPrice, pool.sqrtPrice, TargetPrice(pool, zeroForOne))
    ensures var t, u := pool.currentTick, TickAt(newPrice);
      u == t || (zeroForOne && u == t - 1) || (!zeroForOne && u == t + 1)
    ensures TickAt(newPrice) != pool.currentTick ==>
      CrossedTick(pool.currentTick, zeroForOne) == Max(pool.currentTick, TickAt(newPrice))
  {
    hide PriceAt, TickAt;
    var target := TargetTick(pool.currentTick, zeroForOne);
    TickAtSupported(pool.sqrtPrice);
    TickOfPriceOfTick(target);
    if pool.sqrtPrice <= PriceAt(target) {
      TickMonotone(pool.sqrtPrice, newPrice);
      TickMonotone(newPrice, PriceAt(target));
    } else {
      TickMonotone(newPrice, pool.sqrtPrice);
      TickMonotone(PriceAt(target), newPrice);
    }
  }

  /** Mirroring the higher of two neighbouring ticks about the growth before the swap keeps the
      growth below every tick, apart from the swap's own increment. */
  lemma MirrorBelow(
    p: PoolState, q: PoolState, outside: OutsideFees, zeroForOne: bool, newPrice: int, tick: int, isA: bool)
    requires q.currentTick == TickAt(newPrice)
    requires var t, u := p.currentTick, q.currentTick;
      u == t || (zeroForOne && u == t - 1) || (!zeroForOne && u == t + 1)
    requires q.currentTick != p.currentTick ==>
      CrossedTick(p.currentTick, zeroForOne) == Max(p.currentTick, q.currentTick)
    ensures GrowthBelow(q, MovedOutside(p, outside, zeroForOne, newPrice), tick, isA)
         == GrowthBelow(p, outside, tick, isA)
            + (if q.currentTick < tick then GrowthGlobal(q, isA) - GrowthGlobal(p, isA) else 0)
  {
    hide TickAt, TargetTick;
  }

  lemma PoolBasics(pool: PoolState)
    requires ValidPool(pool)
    ensures 0 < pool.sqrtPrice <= I128_MAX && pool.liquidity >= 0
  {
  }

  lemma UnfoldValid(s: State)
    requires Valid(s)
    ensures ValidPool(s.pool)
  {
  }

  /** Growth below a tick changes by exactly the increment of a swap that ends below that tick. */
  lemma SwapBelow(s: State, now: nat, c: Call, tick: int, isA: bool)
    requires Valid(s) && c.Swap? && DoSwap(s, now, c).Done?
    ensures var t := DoSwap(s, now, c).state;
      GrowthBelow(t.pool, t.outside, tick, isA)
      == GrowthBelow(s.pool, s.outside, tick, isA)
         + (if t.pool.currentTick < tick then GrowthGlobal(t.pool, isA) - GrowthGlobal(s.pool, isA) else 0)
  {
    hide ComputeSwapStep, TargetPrice, TickAt, TargetTick, FeeIncrement, Valid, ValidPool;
    assert ValidPool(s.pool) by {
      UnfoldValid(s);
    }
    PoolBasics(s.pool);
    var step := ComputeSwapStep(s.pool.sqrtPrice, TargetPrice(s.pool, c.zeroForOne), s.pool.liquidity,
                                c.amountIn, s.pool.dynamicFeeBps).value;
    SwapPrice(s, c);
    TickOnTheWay(s.pool, c.zeroForOne, step.newPrice);
    var t := DoSwap(s, now, c).state;
    MirrorBelow(s.pool, t.pool, s.outside, c.zeroForOne, step.newPrice, tick, isA);
  }

  lemma SwapGrowth(s: State, now: nat, c: Call, isA: bool)
    requires Valid(s) && c.Swap? && DoSwap(s, now, c).Done?
    ensures GrowthGlobal(DoSwap(s, now, c).state.pool, isA) - GrowthGlobal(s.pool, isA)
         == Increment(s, At(now, c), isA)
    ensures Increment(s, At(now, c), isA) >= 0
  {
    hide ComputeSwapStep, TargetPrice, TickAt, Valid, TruncDiv, MovedOutside;
    SwapPrice(s, c);
    assert ValidPool(s.pool) by {
      UnfoldValid(s);
    }
  }

  /** Calls other than swaps touch neither the tick nor the accumulators. */
  lemma OtherCallsKeepFees(s: State, now: nat, c: Call)
    requires Valid(s) && !c.Swap? && Execute(s, now, c).Done?
    ensures var t := Execute(s, now, c).state;
      && t.pool.currentTick == s.pool.currentTick && t.pool.sqrtPrice == s.pool.sqrtPrice
      && t.outside == s.outside
      && t.pool.feeGrowthA == s.pool.feeGrowthA && t.pool.feeGrowthB == s.pool.feeGrowthB
  {
    hide Valid, PriceAt, LiquidityMath.AmountsForLiquidity, LiquidityMath.LiquidityFromAmounts, EstimateIlBps,
      Tokens.TransferIfPositive, FeeGrowthInside, TruncDiv, Accrued, HedgeRelease, HedgeReserve, Fees.DynamicFee, Without;
  }

  /** One call changes the growth below a tick by its increment if it ends below the tick. */
  lemma StepBelow(s: State, e: TimedCall, tick: int, isA: bool)
    requires Valid(s)
    ensures var t := Step(s, e.now, e.call);
      && GrowthGlobal(t.pool, isA) == GrowthGlobal(s.pool, isA) + Increment(s, e, isA)
      && GrowthBelow(t.pool, t.outside, tick, isA)
         == GrowthBelow(s.pool, s.outside, tick, isA)
            + (if t.pool.currentTick < tick then Increment(s, e, isA) else 0)
      && Increment(s, e, isA) >= 0
  {
    hide Valid, DoAdd, DoRemove, DoCollect, DoSwap, DoUpdateFee, FeeIncrement;
    if Execute(s, e.now, e.call).Done? {
      if e.call.Swap? {
        SwapBelow(s, e.now, e.call, tick, isA);
        SwapGrowth(s, e.now, e.call, isA);
      } else {
        OtherCallsKeepFees(s, e.now, e.call);
      }
    }
  }

  // ---------------------------------------------------------------- whole runs

  lemma InsideFromBelow(pool: PoolState, outside: OutsideFees, lower: int, upper: int, isA: bool)
    ensures FeeGrowthInside(pool, outside, lower, upper, isA)
         == GrowthBelow(pool, outside, upper, isA) - GrowthBelow(pool, outside, lower, isA)
  {
  }

  /** One call changes the growth inside a range by its increment if it ends in the range. */
  lemma StepInside(s: State, e: TimedCall, lower: int, upper: int, isA: bool)
    requires Valid(s) && lower <= upper
    ensures var t := Step(s, e.now, e.call);
      && FeeGrowthInside(t.pool, t.outside, lower, upper, isA)
         == FeeGrowthInside(s.pool, s.outside, lower, upper, isA)
            + (if lower <= t.pool.currentTick < upper then Increment(s, e, isA) else 0)
      && Increment(s, e, isA) >= 0
  {
    hide Valid, Step, Increment, GrowthBelow, FeeGrowthInside;
    var t := Step(s, e.now, e.call);
    StepBelow(s, e, lower, isA);
    StepBelow(s, e, upper, isA);
    InsideFromBelow(s.pool, s.outside, lower, upper, isA);
    InsideFromBelow(t.pool, t.outside, lower, upper, isA);
  }

  /** In every run from any state, the growth inside a range moves as the ledger says. */
  lemma {:induction false} InsideFollowsLedger(s: State, calls: seq<TimedCall>, lower: int, upper: int, isA: bool)
    requires Valid(s) && lower <= upper
    ensures var t := Run(s, calls);
      FeeGrowthInside(t.pool, t.outside, lower, upper, isA)
      == FeeGrowthInside(s.pool, s.outside, lower, upper, isA) + Ledger(s, calls, lower, upper, isA)
    ensures Ledger(s, calls, lower, upper, isA) >= 0
    decreases |calls|
  {
    hide Valid, Step, Increment, FeeGrowthInside;
    if calls != [] {
      var last, front := calls[|calls| - 1], calls[..|calls| - 1];
      InsideFollowsLedger(s, front, lower, upper, isA);
      StepInside(Run(s, front), last, lower, upper, isA);
    }
  }

  /** From pool creation on, whatever is called in whatever order, the fee growth read in constant
      time for a range is the naive ledger's sum for that range. */
  lemma AccumulatorsRefineLedger(
    feeTier: nat, initialPrice: int, tokensA: Tokens.Balances, tokensB: Tokens.Balances,
    calls: seq<TimedCall>, lower: int, upper: int, isA: bool)
    requires CreatePool(feeTier, initialPrice, tokensA, tokensB).Some? && lower <= upper
    ensures var s := CreatePool(feeTier, initialPrice, tokensA, tokensB).value;
      var t := Run(s, calls);
      FeeGrowthInside(t.pool, t.outside, lower, upper, isA) == Ledger(s, calls, lower, upper, isA)
  {
    hide Valid, Run, TickAt, Ledger;
    var s := CreatePool(feeTier, initialPrice, tokensA, tokensB).value;
    InsideFollowsLedger(s, calls, lower, upper, isA);
  }

  /** In reachable states each stored number lies between zero and the global growth, so none of
      the subtractions that read the accumulators can overflow. */
  lemma {:induction false} AccumulatorsInRange(s: State, calls: seq<TimedCall>, tick: int, isA: bool)
    requires Valid(s) && s.pool.feeGrowthA == s.pool.feeGrowthB == 0 && s.outside == map[]
    ensures var t := Run(s, calls);
      && 0 <= ReadOutside(t.outside, tick, isA) <= GrowthGlobal(t.pool, isA)
      && 0 <= GrowthBelow(t.pool, t.outside, tick, isA) <= GrowthGlobal(t.pool, isA)
    decreases |calls|
  {
    hide Valid, Step, Increment;
    if calls != [] {
      var last, front := calls[|calls| - 1], calls[..|calls| - 1];
      AccumulatorsInRange(s, front, tick, isA);
      StepBelow(Run(s, front), last, tick, isA);
    }
  }
}
