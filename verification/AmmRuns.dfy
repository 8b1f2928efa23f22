/** Further properties of runs of the pool: what swaps cost the pool in token B, the hedge reserve,
    and the index of positions by owner. */
module AmmRuns {
  import opened Common
  import opened FixedPoint
  import opened TickMap
  import opened SwapMath
  import opened Amm
  import opened FeeLedger
  import opened IlHedge
  import LiquidityMath
  import Fees
  import Tokens = Ledger

  // ---------------------------------------------------------------- token B and the price

  /** Token B the pool receives by a call that swaps; negative when it pays out. */
  function SwapNetB(s: State, e: TimedCall): int
    requires Valid(s)
  {
    if e.call.Swap? && Execute(s, e.now, e.call).Done? then
      var r := Execute(s, e.now, e.call).receipt;
      if e.call.zeroForOne then -r.amountOut else r.amountIn
    else 0
  }

  /** The receipt's amounts are what the contract's balance of token B moves by. */
  lemma SwapMovesTokenB(s: State, e: TimedCall)
    requires Valid(s) && e.call.Swap? && e.call.caller != CONTRACT
    ensures Tokens.BalanceOf(Step(s, e.now, e.call).tokensB, CONTRACT)
         == Tokens.BalanceOf(s.tokensB, CONTRACT) + SwapNetB(s, e)
  {
    hide ComputeSwapStep, TargetPrice, TickAt, MovedPool, MovedOutside, AccumulateFeeGrowth, Fees.PositiveHistory,
      ValidPosition;
    if Execute(s, e.now, e.call).Done? {
      SwapPrice(s, e.call);
    }
  }

  /** What is left of a swap's input after the fee. */
  function AfterFee(pool: PoolState, c: Call): int
    requires c.Swap?
  {
    c.amountIn - c.amountIn * pool.dynamicFeeBps / FEE_DENOMINATOR
  }

  /** The swap's step is not clamped; and where token A is sold below the table, so that the price rises,
      the rise is slight. */
  predicate Fair(pool: PoolState, c: Call)
    requires c.Swap?
  {
    if c.zeroForOne && pool.sqrtPrice < MIN_PRICE then
      Slight(pool.sqrtPrice, MIN_PRICE, pool.liquidity, AfterFee(pool, c))
    else
      !Clamped(pool.sqrtPrice, TargetPrice(pool, c.zeroForOne), pool.liquidity, AfterFee(pool, c))
  }

  /** The call leaves the pool's liquidity alone, and if it swaps it does so fairly. */
  predicate FairStep(s: State, e: TimedCall)
    requires Valid(s)
  {
    && Step(s, e.now, e.call).pool.liquidity == s.pool.liquidity
    && (Swaps(s, e) ==> Fair(s.pool, e.call))
  }

  /** The call is a swap and goes through. */
  predicate Swaps(s: State, e: TimedCall): (b: bool)
    requires Valid(s)
    ensures b ==> e.call.Swap?
  {
    hide Valid, DoAdd, DoRemove, DoCollect, DoSwap, DoUpdateFee;
    e.call.Swap? && Execute(s, e.now, e.call).Done?
  }

  /** The pool's liquidity stays the same throughout, and every swap that goes through is fair. */
  predicate SwapRun(s: State, calls: seq<TimedCall>)
    requires Valid(s)
    decreases |calls|
  {
    hide Valid, Run, FairStep;
    calls != [] ==>
      var last, front := calls[|calls| - 1], calls[..|calls| - 1];
      SwapRun(s, front) && FairStep(Run(s, front), last)
  }

  function NetTokenB(s: State, calls: seq<TimedCall>): int
    requires Valid(s)
    decreases |calls|
  {
    hide Valid, Run, SwapNetB;
    if calls == [] then 0
    else
      var last, front := calls[|calls| - 1], calls[..|calls| - 1];
      NetTokenB(s, front) + SwapNetB(Run(s, front), last)
  }

  /** Swaps of a run that go through. */
  function SwapCount(s: State, calls: seq<TimedCall>): nat
    requires Valid(s)
    decreases |calls|
  {
    hide Valid, Run, Swaps;
    if calls == [] then 0
    else
      var last, front := calls[|calls| - 1], calls[..|calls| - 1];
      SwapCount(s, front) + (if Swaps(Run(s, front), last) then 1 else 0)
  }

  /** A seller's target is not above the price unless the price is below the table, and a buyer's not
      below it unless the price is above the table. */
  lemma TargetOnTheRightSide(pool: PoolState, zeroForOne: bool)
    requires ValidPool(pool)
    ensures MIN_PRICE <= TargetPrice(pool, zeroForOne) <= MAX_PRICE
    ensures zeroForOne && MIN_PRICE <= pool.sqrtPrice ==> TargetPrice(pool, zeroForOne) <= pool.sqrtPrice
    ensures !zeroForOne && pool.sqrtPrice <= MAX_PRICE ==> pool.sqrtPrice <= TargetPrice(pool, zeroForOne)
    ensures zeroForOne && pool.sqrtPrice < MIN_PRICE ==> TargetPrice(pool, zeroForOne) == MIN_PRICE
  {
    hide PriceAt, TickAt;
    var target := TargetTick(pool.currentTick, zeroForOne);
    TickAtSupported(pool.sqrtPrice);
    PriceRange(target);
    if target > MIN_TICK {
      TickPriceAdjunction(pool.sqrtPrice, target);
    }
    if pool.currentTick > MIN_TICK {
      TickPriceAdjunction(pool.sqrtPrice, pool.currentTick);
      PriceRange(pool.currentTick);
    }
  }

  lemma NoMoveNoTokens(price: int, liquidity: int, amount: int, feeBps: nat)
    requires price > 0 && ComputeSwapStep(price, price, liquidity, amount, feeBps).Ok?
    ensures var s := ComputeSwapStep(price, price, liquidity, amount, feeBps).value;
      s.amountIn == 0 && s.amountOut == 0
  {
    hide SatMul, TruncDiv;
    assert SatMul(liquidity, 0) == 0;
    DivUnique(0, Q64, 0);
    DivUnique(0, price, 0);
    assert SatMul(0, Q64) == 0;
  }

  /** Token B keeps up with the price along the pool's liquidity, up to one unit. */
  predicate KeepsUp(s: State, e: TimedCall)
    requires Valid(s)
  {
    Q64 * SwapNetB(s, e)
    >= s.pool.liquidity * (Step(s, e.now, e.call).pool.sqrtPrice - s.pool.sqrtPrice) - (Q64 - 1)
  }

  lemma SwapOutcome(s: State, e: TimedCall)
    requires Valid(s) && e.call.Swap? && Execute(s, e.now, e.call).Done?
    ensures e.call.amountIn > 0 && 0 < s.pool.sqrtPrice <= I128_MAX && s.pool.liquidity >= 0
    ensures s.pool.dynamicFeeBps <= FEE_DENOMINATOR
    ensures var target := TargetPrice(s.pool, e.call.zeroForOne);
      var computed := ComputeSwapStep(s.pool.sqrtPrice, target, s.pool.liquidity, e.call.amountIn, s.pool.dynamicFeeBps);
      && computed.Ok?
      && Step(s, e.now, e.call).pool.sqrtPrice == computed.value.newPrice
      && Step(s, e.now, e.call).pool.liquidity == s.pool.liquidity
      && SwapNetB(s, e) == (if e.call.zeroForOne then -computed.value.amountOut else computed.value.amountIn)
      && Between(computed.value.newPrice, s.pool.sqrtPrice, target)
      && computed.value.amountIn >= 0 && computed.value.amountOut >= 0
  {
    hide ComputeSwapStep, TargetPrice, TickAt, MovedOutside, AccumulateFeeGrowth, Fees.PositiveHistory,
      ValidPosition, Tokens.Transfer;
    SwapPrice(s, e.call);
  }

  /** A swap that goes through keeps up exactly when it is fair. */
  lemma SwapPotential(s: State, e: TimedCall)
    requires Valid(s) && e.call.Swap? && Execute(s, e.now, e.call).Done?
    ensures KeepsUp(s, e) <==> Fair(s.pool, e.call)
  {
    hide ComputeSwapStep, TargetPrice, TickAt, Execute, Step, ValidPosition, Fees.PositiveHistory, SwapNetB, Clamped,
      Slight;
    if e.call.zeroForOne && s.pool.sqrtPrice < MIN_PRICE {
      SaleBelowTable(s, e);
    } else {
      SwapTowardsTarget(s, e);
    }
  }

  lemma SwapTowardsTarget(s: State, e: TimedCall)
    requires Valid(s) && e.call.Swap? && Execute(s, e.now, e.call).Done?
    requires e.call.zeroForOne ==> MIN_PRICE <= s.pool.sqrtPrice
    ensures KeepsUp(s, e)
      <==> !Clamped(s.pool.sqrtPrice, TargetPrice(s.pool, e.call.zeroForOne), s.pool.liquidity, AfterFee(s.pool, e.call))
  {
    hide ComputeSwapStep, TargetPrice, TickAt, Execute, Step, ValidPosition, Fees.PositiveHistory, SwapNetB, Clamped;
    var pool, target := s.pool, TargetPrice(s.pool, e.call.zeroForOne);
    TargetOnTheRightSide(pool, e.call.zeroForOne);
    SwapOutcome(s, e);
    StepPotential(pool.sqrtPrice, target, pool.liquidity, e.call.amountIn, pool.dynamicFeeBps);
    var t := Step(s, e.now, e.call);
    if pool.sqrtPrice == target {
      NoMoveNoTokens(target, pool.liquidity, e.call.amountIn, pool.dynamicFeeBps);
    } else if !e.call.zeroForOne && target < pool.sqrtPrice {
      FallingKeepsUp(pool.sqrtPrice, target, t.pool.sqrtPrice, pool.liquidity, AfterFee(pool, e.call));
    }
  }

  lemma FallingKeepsUp(current: int, target: int, newPrice: int, liquidity: int, afterFee: int)
    requires target <= newPrice <= current && liquidity >= 0
    ensures liquidity * (newPrice - current) <= 0
    ensures !Clamped(current, target, liquidity, afterFee)
  {
    MulNonNegative(liquidity, current - newPrice);
    MulNonNegative(liquidity, current - target);
    assert liquidity * (newPrice - current) == -(liquidity * (current - newPrice));
    assert liquidity * (target - current) == -(liquidity * (current - target));
  }

  /** Below the table a sale of token A raises the price, and pays out whole units of token B as soon as the
      rise is worth the price itself: it keeps up exactly below that, which the input tells beforehand. */
  lemma SaleBelowTable(s: State, e: TimedCall)
    requires Valid(s) && e.call.Swap? && Execute(s, e.now, e.call).Done?
    requires e.call.zeroForOne && s.pool.sqrtPrice < MIN_PRICE
    ensures var rise := Step(s, e.now, e.call).pool.sqrtPrice - s.pool.sqrtPrice;
      && rise >= 0
      && (KeepsUp(s, e) <==> s.pool.liquidity * rise < s.pool.sqrtPrice)
      && (KeepsUp(s, e) <==> Slight(s.pool.sqrtPrice, MIN_PRICE, s.pool.liquidity, AfterFee(s.pool, e.call)))
  {
    hide ComputeSwapStep, TargetPrice, TickAt, Execute, Step, ValidPosition, Fees.PositiveHistory, SwapNetB, Slight;
    TargetOnTheRightSide(s.pool, true);
    SwapOutcome(s, e);
    var p, l, a := s.pool.sqrtPrice, s.pool.liquidity, AfterFee(s.pool, e.call);
    var fee := e.call.amountIn * s.pool.dynamicFeeBps / FEE_DENOMINATOR;
    StepIsBuy(p, MIN_PRICE, l, e.call.amountIn, s.pool.dynamicFeeBps);
    PaysNothingIff(p, MIN_PRICE, l, a, fee);
    var rise := Step(s, e.now, e.call).pool.sqrtPrice - p;
    MulNonNegative(l, rise);
  }

  lemma StepIsBuy(current: int, target: int, liquidity: int, amount: int, feeBps: nat)
    requires 0 <= current <= target && amount >= 0 && feeBps <= FEE_DENOMINATOR
    requires ComputeSwapStep(current, target, liquidity, amount, feeBps).Ok?
    ensures var fee := amount * feeBps / FEE_DENOMINATOR;
      && amount - fee >= 0
      && ComputeSwapStep(current, target, liquidity, amount, feeBps)
         == Ok(BuyStep(current, target, liquidity, amount - fee, fee))
  {
    hide SatMul, TruncDiv, BuyStep, SellStep;
    FeeWithinInput(amount, feeBps);
    MulNonNegative(amount, feeBps);
  }

  lemma FairStepKeepsUp(s: State, e: TimedCall)
    requires Valid(s) && FairStep(s, e) && Swaps(s, e)
    ensures KeepsUp(s, e)
  {
    hide Valid, Execute, Fair;
    SwapPotential(s, e);
  }

  lemma IdlePotential(s: State, e: TimedCall)
    requires Valid(s) && !Swaps(s, e)
    ensures Step(s, e.now, e.call).pool.sqrtPrice == s.pool.sqrtPrice
    ensures SwapNetB(s, e) == 0
  {
    hide Valid, Execute;
    if Execute(s, e.now, e.call).Done? {
      OtherCallsKeepFees(s, e.now, e.call);
    }
  }

  /** Over any run at fixed liquidity whose swaps are fair, the token B the pool receives pays for the
      rise of the price along its liquidity, up to one unit for each swap that goes through. */
  lemma {:induction false} TokenBPotential(s: State, calls: seq<TimedCall>)
    requires Valid(s) && SwapRun(s, calls)
    ensures var t := Run(s, calls);
      && t.pool.liquidity == s.pool.liquidity
      && Q64 * NetTokenB(s, calls)
         >= s.pool.liquidity * (t.pool.sqrtPrice - s.pool.sqrtPrice) - SwapCount(s, calls) * (Q64 - 1)
    decreases |calls|
  {
    hide Valid, Step, SwapNetB, Execute, Swaps, FairStep;
    if calls == [] {
      assert s.pool.liquidity * (s.pool.sqrtPrice - s.pool.sqrtPrice) == 0;
    } else {
      var last, front := calls[|calls| - 1], calls[..|calls| - 1];
      TokenBPotential(s, front);
      var m, t, l := Run(s, front), Run(s, calls), s.pool.liquidity;
      assert t.pool.liquidity == m.pool.liquidity by {
        FairKeepsLiquidity(m, last);
      }
      if Swaps(m, last) {
        FairStepKeepsUp(m, last);
      } else {
        IdlePotential(m, last);
      }
      assert l * (t.pool.sqrtPrice - s.pool.sqrtPrice)
          == l * (t.pool.sqrtPrice - m.pool.sqrtPrice) + l * (m.pool.sqrtPrice - s.pool.sqrtPrice);
    }
  }

  lemma FairKeepsLiquidity(s: State, e: TimedCall)
    requires Valid(s) && FairStep(s, e)
    ensures Step(s, e.now, e.call).pool.liquidity == s.pool.liquidity
  {
    hide Valid, Step, Swaps, Fair;
  }

  /** A run that ends at or above its first price loses fewer units of token B than it has swaps that go through. */
  lemma RoundTripLoss(s: State, calls: seq<TimedCall>)
    requires Valid(s) && SwapRun(s, calls)
    requires Run(s, calls).pool.sqrtPrice >= s.pool.sqrtPrice
    ensures NetTokenB(s, calls) + SwapCount(s, calls) > 0 || NetTokenB(s, calls) == SwapCount(s, calls) == 0
  {
    hide Run, SwapRun, NetTokenB, SwapCount, TickAt;
    TokenBPotential(s, calls);
    MulNonNegative(s.pool.liquidity, Run(s, calls).pool.sqrtPrice - s.pool.sqrtPrice);
  }

  // ---------------------------------------------------------------- hedge reserve

  function ReserveOf(pool: PoolState, isA: bool): int {
    if isA then pool.ilReserveA else pool.ilReserveB
  }

  function Side(pair: (int, int), isA: bool): int {
    if isA then pair.0 else pair.1
  }

  /** What a successful deposit locks in the reserve. */
  function Locked(s: State, e: TimedCall, isA: bool): int
    requires Valid(s)
  {
    if e.call.AddLiquidity? && Execute(s, e.now, e.call).Done? then
      var r := Execute(s, e.now, e.call).receipt;
      Side(Hedged(s, e.call, r.amountA, r.amountB), isA)
    else 0
  }

  /** What a successful withdrawal pays out of the reserve. */
  function Released(s: State, e: TimedCall, isA: bool): int
    requires Valid(s)
  {
    if e.call.RemoveLiquidity? && Execute(s, e.now, e.call).Done? then
      var r := Execute(s, e.now, e.call).receipt;
      if isA then r.hedgeA else r.hedgeB
    else 0
  }

  lemma AddLocks(s: State, e: TimedCall, isA: bool)
    requires Valid(s) && e.call.AddLiquidity? && Execute(s, e.now, e.call).Done?
    ensures ReserveOf(Step(s, e.now, e.call).pool, isA) == ReserveOf(s.pool, isA) + Locked(s, e, isA)
    ensures Locked(s, e, isA) >= 0
  {
    hide TickAt, PriceAt, LiquidityMath.AmountsForLiquidity, LiquidityMath.LiquidityFromAmounts, EstimateIlBps, HedgeReserve,
      Tokens.TransferIfPositive, FeeGrowthInside, Fees.PositiveHistory, ValidPosition;
    var c, lower, upper := e.call, PriceAt(e.call.tickLower), PriceAt(e.call.tickUpper);
    PriceRange(c.tickLower);
    PriceRange(c.tickUpper);
    LiquidityMath.DepositWithinOffer(c.desiredA, c.desiredB, lower, upper, s.pool.sqrtPrice);
    var r := Execute(s, e.now, e.call).receipt;
    ReserveNonNegative(EstimateIlBps(c.tickLower, c.tickUpper, s.pool.sqrtPrice), r.amountA, r.amountB);
  }

  /** The release is at most the reserve, so clamping the difference at zero changes nothing. */
  lemma RemoveReleases(s: State, e: TimedCall, isA: bool)
    requires Valid(s) && e.call.RemoveLiquidity? && Execute(s, e.now, e.call).Done?
    ensures ReserveOf(Step(s, e.now, e.call).pool, isA) == ReserveOf(s.pool, isA) - Released(s, e, isA)
    ensures 0 <= Released(s, e, isA) <= ReserveOf(s.pool, isA)
  {
    hide TickAt, PriceAt, LiquidityMath.AmountsForLiquidity, HedgeRelease, Tokens.TransferIfPositive,
      FeeGrowthInside, Fees.PositiveHistory, Accrual, AccrualFits, InsideNow, Without;
    var p, l := s.positions[e.call.positionId], e.call.liquidity;
    ReleaseWithinReserve(s.pool.ilReserveA, l, p.liquidity);
    ReleaseWithinReserve(s.pool.ilReserveB, l, p.liquidity);
  }

  lemma OthersKeepReserve(s: State, e: TimedCall, isA: bool)
    requires Valid(s) && !e.call.AddLiquidity? && !e.call.RemoveLiquidity? && Execute(s, e.now, e.call).Done?
    ensures ReserveOf(Step(s, e.now, e.call).pool, isA) == ReserveOf(s.pool, isA)
  {
    hide Valid, DoAdd, DoRemove, DoCollect, DoSwap, DoUpdateFee;
    if e.call.Swap? {
      SwapLeavesPool(s, e.now, e.call);
    } else {
      QuietLeavesPool(s, e.now, e.call);
    }
  }

  function TotalLocked(s: State, calls: seq<TimedCall>, isA: bool): int
    requires Valid(s)
    decreases |calls|
  {
    hide Valid, Run, Locked;
    if calls == [] then 0
    else
      var last, front := calls[|calls| - 1], calls[..|calls| - 1];
      TotalLocked(s, front, isA) + Locked(Run(s, front), last, isA)
  }

  function TotalReleased(s: State, calls: seq<TimedCall>, isA: bool): int
    requires Valid(s)
    decreases |calls|
  {
    hide Valid, Run, Released;
    if calls == [] then 0
    else
      var last, front := calls[|calls| - 1], calls[..|calls| - 1];
      TotalReleased(s, front, isA) + Released(Run(s, front), last, isA)
  }

  /** Over any run, what was locked is what was released plus what remains. */
  lemma {:induction false} HedgeConserved(s: State, calls: seq<TimedCall>, isA: bool)
    requires Valid(s)
    ensures ReserveOf(s.pool, isA) + TotalLocked(s, calls, isA)
         == TotalReleased(s, calls, isA) + ReserveOf(Run(s, calls).pool, isA)
    decreases |calls|
  {
    hide Valid, Execute, Locked, Released;
    if calls != [] {
      var last, front := calls[|calls| - 1], calls[..|calls| - 1];
      HedgeConserved(s, front, isA);
      var m := Run(s, front);
      LockedOrReleased(m, last, isA);
    }
  }

  lemma LockedOrReleased(s: State, e: TimedCall, isA: bool)
    requires Valid(s)
    ensures ReserveOf(Step(s, e.now, e.call).pool, isA) == ReserveOf(s.pool, isA) + Locked(s, e, isA) - Released(s, e, isA)
  {
    hide Valid, DoAdd, DoRemove, DoCollect, DoSwap, DoUpdateFee;
    if Execute(s, e.now, e.call).Done? {
      if e.call.AddLiquidity? {
        AddLocks(s, e, isA);
      } else if e.call.RemoveLiquidity? {
        RemoveReleases(s, e, isA);
      } else {
        OthersKeepReserve(s, e, isA);
      }
    }
  }

  // ---------------------------------------------------------------- owner index

  /** The index of an owner lists the owner's live positions, each once. */
  ghost predicate Indexed(s: State, owner: Tokens.Address) {
    && Distinct(Index(s.ownerIndex, owner))
    && (forall id :: id in Index(s.ownerIndex, owner) <==> id in s.positions && s.positions[id].owner == owner)
  }

  lemma {:induction false} WithoutIsFilter(ids: seq<nat>, id: nat)
    ensures forall i :: i in Without(ids, id) <==> i in ids && i != id
    ensures Distinct(ids) ==> Distinct(Without(ids, id))
  {
    if ids != [] {
      var front, last := ids[..|ids| - 1], ids[|ids| - 1];
      assert ids == front + [last];
      WithoutIsFilter(front, id);
      if Distinct(ids) {
        forall i, j | 0 <= i < j < |Without(ids, id)|
          ensures Without(ids, id)[i] != Without(ids, id)[j]
        {
          assert last !in front;
          if j == |Without(front, id)| {
            assert Without(front, id)[i] in front;
          }
        }
      }
    }
  }

  lemma AddIndexes(s: State, e: TimedCall, owner: Tokens.Address)
    requires Valid(s) && Indexed(s, owner) && e.call.AddLiquidity? && Execute(s, e.now, e.call).Done?
    ensures Indexed(Step(s, e.now, e.call), owner)
  {
    hide PriceAt, LiquidityMath.AmountsForLiquidity, LiquidityMath.LiquidityFromAmounts, Hedged, ValidPool,
      Tokens.TransferIfPositive, FeeGrowthInside, Fees.PositiveHistory;
    var t, id := Step(s, e.now, e.call), s.positionCount + 1;
    assert id !in s.positions && t.positions == s.positions[id := t.positions[id]];
    if owner == e.call.caller {
      assert Index(t.ownerIndex, owner) == Index(s.ownerIndex, owner) + [id];
      assert id !in Index(s.ownerIndex, owner);
    }
  }

  lemma RemoveIndexes(s: State, e: TimedCall, owner: Tokens.Address)
    requires Valid(s) && Indexed(s, owner) && e.call.RemoveLiquidity? && Execute(s, e.now, e.call).Done?
    ensures Indexed(Step(s, e.now, e.call), owner)
  {
    hide PriceAt, LiquidityMath.AmountsForLiquidity, HedgeRelease, Tokens.TransferIfPositive, ValidPool,
      FeeGrowthInside, Fees.PositiveHistory, Accrual, AccrualFits, InsideNow, Without, Deactivate;
    WithoutIsFilter(Index(s.ownerIndex, owner), e.call.positionId);
  }

  lemma OthersKeepIndex(s: State, e: TimedCall, owner: Tokens.Address)
    requires Valid(s) && Indexed(s, owner) && !e.call.AddLiquidity? && !e.call.RemoveLiquidity?
    ensures Indexed(Step(s, e.now, e.call), owner)
  {
    hide Valid, Execute;
    if Execute(s, e.now, e.call).Done? {
      OthersKeepOwners(s, e);
    }
  }

  /** Only deposits and withdrawals open or close a position, and none changes hands. */
  lemma OthersKeepOwners(s: State, e: TimedCall)
    requires Valid(s) && !e.call.AddLiquidity? && !e.call.RemoveLiquidity? && Execute(s, e.now, e.call).Done?
    ensures var t := Step(s, e.now, e.call);
      && t.ownerIndex == s.ownerIndex && t.positions.Keys == s.positions.Keys
      && (forall id :: id in s.positions ==> t.positions[id].owner == s.positions[id].owner)
  {
    hide Valid, DoAdd, DoRemove, DoCollect, DoSwap, Fees.DynamicFee;
    if e.call.Swap? {
      SwapKeepsPositions(s, e.now, e.call);
    } else if e.call.CollectFees? {
      CollectKeepsOwner(s, e.call);
    }
  }

  lemma SwapKeepsPositions(s: State, now: nat, c: Call)
    requires Valid(s) && c.Swap? && DoSwap(s, now, c).Done?
    ensures DoSwap(s, now, c).state.positions == s.positions && DoSwap(s, now, c).state.ownerIndex == s.ownerIndex
  {
    hide Valid, ComputeSwapStep, TargetPrice, TickAt, MovedPool, MovedOutside, AccumulateFeeGrowth, Tokens.Transfer;
  }

  lemma CollectKeepsOwner(s: State, c: Call)
    requires Valid(s) && c.CollectFees? && DoCollect(s, c).Done?
    ensures var t, id := DoCollect(s, c).state, c.positionId;
      && t.ownerIndex == s.ownerIndex && id in s.positions && id in t.positions
      && t.positions == s.positions[id := t.positions[id]] && t.positions[id].owner == s.positions[id].owner
  {
    hide Valid, InsideNow, Accrual, AccrualFits, Tokens.TransferIfPositive;
  }

  lemma {:induction false} IndexKept(s: State, calls: seq<TimedCall>, owner: Tokens.Address)
    requires Valid(s) && Indexed(s, owner)
    ensures Indexed(Run(s, calls), owner)
    decreases |calls|
  {
    hide Valid, Execute, Indexed;
    if calls != [] {
      var last, front := calls[|calls| - 1], calls[..|calls| - 1];
      IndexKept(s, front, owner);
      var m := Run(s, front);
      if last.call.AddLiquidity? && Execute(m, last.now, last.call).Done? {
        AddIndexes(m, last, owner);
      } else if last.call.RemoveLiquidity? && Execute(m, last.now, last.call).Done? {
        RemoveIndexes(m, last, owner);
      } else if !last.call.AddLiquidity? && !last.call.RemoveLiquidity? {
        OthersKeepIndex(m, last, owner);
      }
    }
  }

  /** The owner query: the indexed positions that are still stored, in index order. */
  function OwnerPositions(positions: map<nat, Position>, ids: seq<nat>): seq<Position> {
    if ids == [] then []
    else
      var front, last := OwnerPositions(positions, ids[..|ids| - 1]), ids[|ids| - 1];
      if last in positions then front + [positions[last]] else front
  }

  lemma {:induction false} AllStored(positions: map<nat, Position>, ids: seq<nat>)
    requires forall id :: id in ids ==> id in positions
    ensures |OwnerPositions(positions, ids)| == |ids|
    ensures forall i :: 0 <= i < |ids| ==> OwnerPositions(positions, ids)[i] == positions[ids[i]]
  {
    if ids != [] {
      AllStored(positions, ids[..|ids| - 1]);
      assert ids[|ids| - 1] in ids;
    }
  }

  /** In every reachable state, an owner's query returns all live positions of the owner, each
      once, and no other. */
  lemma OwnerQueryIsExact(
    feeTier: nat, initialPrice: int, tokensA: Tokens.Balances, tokensB: Tokens.Balances,
    calls: seq<TimedCall>, owner: Tokens.Address, id: nat)
    requires CreatePool(feeTier, initialPrice, tokensA, tokensB).Some?
    ensures var t := Run(CreatePool(feeTier, initialPrice, tokensA, tokensB).value, calls);
      var found := OwnerPositions(t.positions, Index(t.ownerIndex, owner));
      && ((id in t.positions && t.positions[id].owner == owner) <==> (exists i :: 0 <= i < |found| && found[i].id == id))
      && (forall i, j :: 0 <= i < j < |found| ==> found[i].id != found[j].id)
      && (forall i :: 0 <= i < |found| ==> found[i].owner == owner)
  {
    hide Run, TickAt, OwnerPositions, ValidPool;
    var s := CreatePool(feeTier, initialPrice, tokensA, tokensB).value;
    IndexKept(s, calls, owner);
    var t := Run(s, calls);
    var ids := Index(t.ownerIndex, owner);
    AllStored(t.positions, ids);
    var found := OwnerPositions(t.positions, ids);
    forall i | 0 <= i < |found|
      ensures found[i].id == ids[i] && found[i].owner == owner
    {
      assert ids[i] in ids;
    }
    if id in t.positions && t.positions[id].owner == owner {
      var i :| 0 <= i < |ids| && ids[i] == id;
      assert found[i].id == id;
    }
  }
}
