/** What single calls on the pool mean for the caller: what is paid, what is received, what others
    keep. */
module AmmEffects {
  import opened Common
  import opened FixedPoint
  import opened TickMap
  import opened SwapMath
  import opened IlHedge
  import opened Amm
  import LiquidityMath
  import Fees
  import Tokens = Ledger

  lemma WithdrawnIsNonNegative(liquidity: int, lower: int, upper: int, price: int)
    requires liquidity >= 0 && LiquidityMath.AmountsForLiquidity(liquidity, lower, upper, price).Ok?
    ensures var (a, b) := LiquidityMath.AmountsForLiquidity(liquidity, lower, upper, price).value; a >= 0 && b >= 0
  {
    hide SatMul, TruncDiv;
    var c := LiquidityMath.Clamp(price, lower, upper);
    if upper > c {
      MulNonNegative(liquidity, upper - c);
    }
    if c > lower {
      MulNonNegative(liquidity, c - lower);
    }
  }

  /** A deposit takes at most what was offered and at least the caller's minimum, in both tokens, and
      opens a new position for its liquidity; no other position changes. */
  lemma AddEffect(s: State, now: nat, c: Call)
    requires Valid(s) && c.AddLiquidity? && DoAdd(s, now, c).Done?
    ensures var t, r := DoAdd(s, now, c).state, DoAdd(s, now, c).receipt;
      && r.Added? && r.liquidity > 0
      && c.minA <= r.amountA && 0 <= r.amountA <= Max(c.desiredA, 0)
      && c.minB <= r.amountB && 0 <= r.amountB <= Max(c.desiredB, 0)
      && Tokens.Moved(s.tokensA, t.tokensA, c.caller, CONTRACT, r.amountA)
      && Tokens.Moved(s.tokensB, t.tokensB, c.caller, CONTRACT, r.amountB)
      && r.positionId !in s.positions && r.positionId in t.positions
      && t.positions == s.positions[r.positionId := t.positions[r.positionId]]
      && t.positions[r.positionId].owner == c.caller && t.positions[r.positionId].liquidity == r.liquidity
      && t.positions[r.positionId].owedA == t.positions[r.positionId].owedB == 0
      && t.positions[r.positionId].createdAt == now
      && t.pool.sqrtPrice == s.pool.sqrtPrice
  {
    hide PriceAt, TickAt, LiquidityMath.AmountsForLiquidity, LiquidityMath.LiquidityFromAmounts, EstimateIlBps,
      HedgeReserve, Tokens.TransferIfPositive, FeeGrowthInside, TruncDiv, Tokens.Moved, Fees.PositiveHistory;
    var lower, upper := PriceAt(c.tickLower), PriceAt(c.tickUpper);
    PriceRange(c.tickLower);
    PriceRange(c.tickUpper);
    LiquidityMath.DepositWithinOffer(c.desiredA, c.desiredB, lower, upper, s.pool.sqrtPrice);
    var r := DoAdd(s, now, c).receipt;
    Tokens.TransferMoves(s.tokensA, c.caller, CONTRACT, r.amountA);
    Tokens.TransferMoves(s.tokensB, c.caller, CONTRACT, r.amountB);
  }

  /** A withdrawal pays the position's owner at least the minimum besides the hedge release, and takes
      exactly the named liquidity from that position; no other position changes. */
  lemma RemoveEffect(s: State, c: Call)
    requires Valid(s) && c.RemoveLiquidity? && DoRemove(s, c).Done?
    ensures var t, r, id := DoRemove(s, c).state, DoRemove(s, c).receipt, c.positionId;
      && id in s.positions && s.positions[id].owner == c.caller && 0 < c.liquidity <= s.positions[id].liquidity
      && r.Removed? && r.hedgeA >= 0 && r.hedgeB >= 0
      && r.amountA - r.hedgeA >= c.minA && r.amountB - r.hedgeB >= c.minB
      && LiquidityMath.AmountsForLiquidity(c.liquidity, PriceAt(s.positions[id].tickLower),
           PriceAt(s.positions[id].tickUpper), s.pool.sqrtPrice) == Ok((r.amountA - r.hedgeA, r.amountB - r.hedgeB))
      && Tokens.Moved(s.tokensA, t.tokensA, CONTRACT, c.caller, r.amountA)
      && Tokens.Moved(s.tokensB, t.tokensB, CONTRACT, c.caller, r.amountB)
      && (id in t.positions <==> c.liquidity < s.positions[id].liquidity)
      && (id in t.positions ==> t.positions[id].liquidity == s.positions[id].liquidity - c.liquidity)
      && t.positions - {id} == s.positions - {id}
  {
    hide PriceAt, TickAt, LiquidityMath.AmountsForLiquidity, HedgeRelease, Tokens.TransferIfPositive, FeeGrowthInside,
      TruncDiv, Tokens.Moved, Fees.PositiveHistory, Accrual, AccrualFits, Deactivate, Without;
    var p, r := s.positions[c.positionId], DoRemove(s, c).receipt;
    WithdrawnIsNonNegative(c.liquidity, PriceAt(p.tickLower), PriceAt(p.tickUpper), s.pool.sqrtPrice);
    ReleaseWithinReserve(s.pool.ilReserveA, c.liquidity, p.liquidity);
    ReleaseWithinReserve(s.pool.ilReserveB, c.liquidity, p.liquidity);
    Tokens.TransferMoves(s.tokensA, CONTRACT, c.caller, r.amountA);
    Tokens.TransferMoves(s.tokensB, CONTRACT, c.caller, r.amountB);
  }

  /** A swap takes no more than the input, pays no less than the minimum, moves the price towards its
      target at most, and touches no position. */
  lemma SwapEffect(s: State, now: nat, c: Call)
    requires Valid(s) && c.Swap? && DoSwap(s, now, c).Done?
    ensures var t, r := DoSwap(s, now, c).state, DoSwap(s, now, c).receipt;
      && r.Swapped? && 0 <= r.amountIn && 0 <= r.feePaid && r.amountIn + r.feePaid <= c.amountIn
      && r.amountOut >= c.minAmountOut
      && Tokens.Moved(if c.zeroForOne then s.tokensA else s.tokensB, if c.zeroForOne then t.tokensA else t.tokensB,
               c.caller, CONTRACT, r.amountIn)
      && Tokens.Moved(if c.zeroForOne then s.tokensB else s.tokensA, if c.zeroForOne then t.tokensB else t.tokensA,
               CONTRACT, c.caller, r.amountOut)
      && Between(t.pool.sqrtPrice, s.pool.sqrtPrice, TargetPrice(s.pool, c.zeroForOne))
      && t.pool.sqrtPrice == r.newSqrtPrice && t.pool.currentTick == r.newTick
      && t.positions == s.positions && t.pool.liquidity == s.pool.liquidity
  {
    hide ComputeSwapStep, TargetPrice, TickAt, Tokens.Transfer, TruncDiv, MovedOutside, Tokens.Moved, AccumulateFeeGrowth,
      Fees.PositiveHistory, ValidPosition;
    SwapPrice(s, c);
    var r := DoSwap(s, now, c).receipt;
    var tokensIn, tokensOut :=
      if c.zeroForOne then s.tokensA else s.tokensB, if c.zeroForOne then s.tokensB else s.tokensA;
    Tokens.TransferMoves(tokensIn, c.caller, CONTRACT, r.amountIn);
    Tokens.TransferMoves(tokensOut, CONTRACT, c.caller, r.amountOut);
  }

  /** What a swap leaves in the pool's books: the fee in basis points of the input, the growth it brings
      to the input token alone, the volume, and the price before it as its period's sample. */
  lemma SwapBooks(s: State, now: nat, c: Call, isA: bool)
    requires Valid(s) && c.Swap? && DoSwap(s, now, c).Done?
    ensures var t, r := DoSwap(s, now, c).state, DoSwap(s, now, c).receipt;
      && r.Swapped?
      && r.feePaid * 10_000 <= c.amountIn * s.pool.dynamicFeeBps < (r.feePaid + 1) * 10_000
      && t.pool.totalVolume == s.pool.totalVolume + r.amountIn
      && t.samples == s.samples[now / 3_600 := s.pool.sqrtPrice]
    ensures var t, r := DoSwap(s, now, c).state, DoSwap(s, now, c).receipt;
      var growth := GrowthGlobal(t.pool, isA) - GrowthGlobal(s.pool, isA);
      if c.zeroForOne == isA then
        r.Swapped? && s.pool.liquidity * growth <= r.feePaid * Q64 < s.pool.liquidity * (growth + 1)
      else growth == 0
  {
    hide ComputeSwapStep, TargetPrice, TickAt, Tokens.Transfer, MovedOutside, Fees.PositiveHistory, ValidPosition;
    SwapPrice(s, c);
    FeeIsBasisPoints(s.pool.sqrtPrice, TargetPrice(s.pool, c.zeroForOne), s.pool.liquidity, c.amountIn,
      s.pool.dynamicFeeBps);
    var r := DoSwap(s, now, c).receipt;
    DivBounds(r.feePaid * Q64, s.pool.liquidity);
  }

  /** Fees are paid out once: collecting again at once finds nothing and moves nothing. */
  lemma CollectTwice(s: State, c: Call)
    requires Valid(s) && c.CollectFees? && DoCollect(s, c).Done?
    ensures Valid(DoCollect(s, c).state)
    ensures var t := DoCollect(s, c).state;
      && s.positions[c.positionId].owner == c.caller
      && t.positions - {c.positionId} == s.positions - {c.positionId}
      && DoCollect(t, c).Done?
      && DoCollect(t, c).receipt.amountA <= 0 && DoCollect(t, c).receipt.amountB <= 0
      && DoCollect(t, c).state == t
  {
    hide TickAt, FeeGrowthInside, TruncDiv, Fees.PositiveHistory, ValidPool, Tokens.Transfer;
    CollectKeepsValid(s, c);
    var t := DoCollect(s, c).state;
    SameRange(s, t, s.positions[c.positionId], t.positions[c.positionId]);
    assert t.positions[c.positionId := t.positions[c.positionId]] == t.positions;
  }

  lemma SameRange(s: State, t: State, p: Position, q: Position)
    requires t.pool == s.pool && t.outside == s.outside
    requires p.tickLower == q.tickLower && p.tickUpper == q.tickUpper
    ensures InsideNow(s, p, true) == InsideNow(t, q, true) && InsideNow(s, p, false) == InsideNow(t, q, false)
  {
  }

  /** Withdrawing a fresh position whole returns exactly the deposit, besides the hedge release, and
      leaves positions and liquidity as they were. */
  lemma AddThenRemove(s: State, now: nat, add: Call, remove: Call)
    requires Valid(s) && add.AddLiquidity? && DoAdd(s, now, add).Done?
    requires var r := DoAdd(s, now, add).receipt;
      && r.Added? && remove.RemoveLiquidity?
      && remove.positionId == r.positionId && remove.liquidity == r.liquidity
    requires Valid(DoAdd(s, now, add).state) && DoRemove(DoAdd(s, now, add).state, remove).Done?
    ensures var first, second := DoAdd(s, now, add).receipt, DoRemove(DoAdd(s, now, add).state, remove).receipt;
      && second.Removed?
      && second.amountA - second.hedgeA == first.amountA && second.amountB - second.hedgeB == first.amountB
    ensures var u := DoRemove(DoAdd(s, now, add).state, remove).state;
      u.positions == s.positions && u.pool.liquidity == s.pool.liquidity && u.pool.sqrtPrice == s.pool.sqrtPrice
  {
    hide DoAdd, DoRemove, Tokens.Moved, Valid, TickAt, PriceAt, LiquidityMath.AmountsForLiquidity;
    var t := DoAdd(s, now, add).state;
    AddEffect(s, now, add);
    RemoveEffect(t, remove);
    AddAmounts(s, now, add);
    RemovePool(t, remove);
    var u := DoRemove(t, remove).state;
    assert u.positions == u.positions - {remove.positionId} == t.positions - {remove.positionId} == s.positions;
  }

  // ---------------------------------------------------------------- before the first deposit

  /** No deposit of the run goes through. */
  predicate WithoutDeposits(s: State, calls: seq<TimedCall>)
    requires Valid(s)
    decreases |calls|
  {
    hide Valid, Run, Execute;
    calls != [] ==>
      var last, front := calls[|calls| - 1], calls[..|calls| - 1];
      && WithoutDeposits(s, front)
      && !(last.call.AddLiquidity? && Execute(Run(s, front), last.now, last.call).Done?)
  }

  /** A pool without liquidity, positions and price samples, at the fee of its tier. */
  predicate Untouched(s: State) {
    s.pool.liquidity == 0 && s.positions == map[] && s.samples == map[] && s.pool.dynamicFeeBps == s.pool.feeTier
  }

  lemma {:induction false} NothingCollected(current: nat, n: nat)
    ensures Fees.Collected(map[], current, n) == []
  {
    if n > 0 {
      NothingCollected(current, n - 1);
    }
  }

  lemma UntouchedStep(s: State, e: TimedCall)
    requires Valid(s) && Untouched(s) && !(e.call.AddLiquidity? && Execute(s, e.now, e.call).Done?)
    ensures Step(s, e.now, e.call) == s.(paused := if e.call.SetPaused? then e.call.value else s.paused)
  {
    hide Valid, DoAdd, ComputeSwapStep, TargetPrice, ApplySwap, Accrued, LiquidityMath.AmountsForLiquidity, Burn,
      Fees.FeeOf;
    if e.call.UpdateDynamicFee? && Execute(s, e.now, e.call).Done? {
      NothingCollected(e.now / Fees.ORACLE_PERIOD_SECS, Fees.ORACLE_PERIODS);
      Fees.FlatPriceHasNoPremium(s.samples, e.now, s.pool.feeTier, 1);
    }
  }

  /** The last pause or unpause of a run. */
  function PausedAfter(calls: seq<TimedCall>): bool {
    if calls == [] then false
    else if calls[|calls| - 1].call.SetPaused? then calls[|calls| - 1].call.value
    else PausedAfter(calls[..|calls| - 1])
  }

  /** From creation on, until a deposit goes through, nothing but a pause changes anything: no swap, withdrawal,
      collection or fee update moves the price, a fee, a growth, a balance or the books. */
  lemma {:induction false} EmptyPoolStaysEmpty(
    feeTier: nat, initialPrice: int, tokensA: Tokens.Balances, tokensB: Tokens.Balances, calls: seq<TimedCall>)
    requires CreatePool(feeTier, initialPrice, tokensA, tokensB).Some?
    requires WithoutDeposits(CreatePool(feeTier, initialPrice, tokensA, tokensB).value, calls)
    ensures Run(CreatePool(feeTier, initialPrice, tokensA, tokensB).value, calls)
         == State(PoolState(initialPrice, TickAt(initialPrice), 0, feeTier, feeTier, 0, 0, 0, 0, 0, 0),
              map[], map[], 0, map[], map[], tokensA, tokensB, PausedAfter(calls))
    decreases |calls|
  {
    hide Valid, Execute, Step, TickAt;
    if calls != [] {
      var last, front := calls[|calls| - 1], calls[..|calls| - 1];
      EmptyPoolStaysEmpty(feeTier, initialPrice, tokensA, tokensB, front);
      UntouchedStep(Run(CreatePool(feeTier, initialPrice, tokensA, tokensB).value, front), last);
    }
  }

  /** A range is active exactly while the price lies between its end prices, the lowest tick standing
      for everything below the table. */
  lemma ActiveWhilePriceInRange(s: State, lower: int, upper: int)
    requires Valid(s) && Supported(lower) && Supported(upper) && lower < upper
    ensures InRange(s.pool, lower, upper) <==>
      (lower == MIN_TICK || PriceAt(lower) <= s.pool.sqrtPrice) && s.pool.sqrtPrice < PriceAt(upper)
  {
    hide PriceAt, TickAt, ValidPosition, Fees.PositiveHistory;
    TickAtSupported(s.pool.sqrtPrice);
    if lower > MIN_TICK {
      TickPriceAdjunction(s.pool.sqrtPrice, lower);
    }
    TickPriceAdjunction(s.pool.sqrtPrice, upper);
  }

  /** A deposit adds its liquidity to the pool's exactly when its range is active, and a withdrawal
      takes it back under the same condition. */
  lemma LiquidityFollowsPrice(s: State, now: nat, c: Call)
    requires Valid(s) && Execute(s, now, c).Done? && (c.AddLiquidity? || c.RemoveLiquidity?)
    ensures var t, r := Execute(s, now, c).state, Execute(s, now, c).receipt;
      var lower := if c.AddLiquidity? then c.tickLower else s.positions[c.positionId].tickLower;
      var upper := if c.AddLiquidity? then c.tickUpper else s.positions[c.positionId].tickUpper;
      && (c.AddLiquidity? ==> r.Added?)
      && Supported(lower) && Supported(upper)
      && var active := (lower == MIN_TICK || PriceAt(lower) <= s.pool.sqrtPrice) && s.pool.sqrtPrice < PriceAt(upper);
      t.pool.liquidity ==
        if !active then s.pool.liquidity
        else if c.AddLiquidity? then s.pool.liquidity + r.liquidity
        else Max(s.pool.liquidity - c.liquidity, 0)
  {
    hide DoAdd, DoRemove, PriceAt, TickAt, InRange, ValidPool, Fees.PositiveHistory, LiquidityMath.AmountsForLiquidity;
    if c.AddLiquidity? {
      AddAmounts(s, now, c);
      TicksInOrder(s, now, c);
      ActiveWhilePriceInRange(s, c.tickLower, c.tickUpper);
    } else {
      RemoveEffect(s, c);
      RemovePool(s, c);
      var p := s.positions[c.positionId];
      ActiveWhilePriceInRange(s, p.tickLower, p.tickUpper);
    }
  }

  lemma TicksInOrder(s: State, now: nat, c: Call)
    requires Valid(s) && c.AddLiquidity? && DoAdd(s, now, c).Done?
    ensures c.tickLower < c.tickUpper
  {
    hide PriceAt, TickAt, LiquidityMath.AmountsForLiquidity, LiquidityMath.LiquidityFromAmounts, Mint;
  }

  lemma AddAmounts(s: State, now: nat, c: Call)
    requires Valid(s) && c.AddLiquidity? && DoAdd(s, now, c).Done?
    ensures Supported(c.tickLower) && Supported(c.tickUpper) && s.pool.liquidity >= 0
    ensures var t, r := DoAdd(s, now, c).state, DoAdd(s, now, c).receipt;
      && r.Added? && r.positionId in t.positions
      && t.positions[r.positionId].tickLower == c.tickLower && t.positions[r.positionId].tickUpper == c.tickUpper
      && LiquidityMath.AmountsForLiquidity(r.liquidity, PriceAt(c.tickLower), PriceAt(c.tickUpper), s.pool.sqrtPrice)
         == Ok((r.amountA, r.amountB))
      && t.pool.currentTick == s.pool.currentTick
      && t.pool.liquidity == s.pool.liquidity + (if InRange(s.pool, c.tickLower, c.tickUpper) then r.liquidity else 0)
  {
    hide PriceAt, TickAt, LiquidityMath.AmountsForLiquidity, LiquidityMath.LiquidityFromAmounts, EstimateIlBps,
      HedgeReserve, Tokens.TransferIfPositive, FeeGrowthInside, TruncDiv, Fees.PositiveHistory;
  }

  lemma RemovePool(s: State, c: Call)
    requires Valid(s) && c.RemoveLiquidity? && DoRemove(s, c).Done?
    ensures var p, t := s.positions[c.positionId], DoRemove(s, c).state;
      && t.pool.sqrtPrice == s.pool.sqrtPrice
      && t.pool.liquidity
         == if InRange(s.pool, p.tickLower, p.tickUpper) then Max(s.pool.liquidity - c.liquidity, 0) else s.pool.liquidity
  {
    hide PriceAt, TickAt, LiquidityMath.AmountsForLiquidity, HedgeRelease, Tokens.TransferIfPositive, FeeGrowthInside,
      TruncDiv, Fees.PositiveHistory, Accrual, AccrualFits, Without;
  }

  lemma AddKeepsActive(s: State, now: nat, c: Call)
    requires Valid(s) && c.AddLiquidity? && DoAdd(s, now, c).Done? && s.pool.activeLiquidity == s.pool.liquidity
    ensures DoAdd(s, now, c).state.pool.activeLiquidity == DoAdd(s, now, c).state.pool.liquidity
  {
    hide PriceAt, TickAt, LiquidityMath.AmountsForLiquidity, LiquidityMath.LiquidityFromAmounts, Hedged, TruncDiv,
      Tokens.TransferIfPositive, NewPosition, Fees.PositiveHistory, ValidPosition;
    var lower, upper := PriceAt(c.tickLower), PriceAt(c.tickUpper);
    PriceRange(c.tickLower);
    PriceRange(c.tickUpper);
    LiquidityMath.DepositWithinOffer(c.desiredA, c.desiredB, lower, upper, s.pool.sqrtPrice);
  }

  lemma RemoveKeepsActive(s: State, c: Call)
    requires Valid(s) && c.RemoveLiquidity? && DoRemove(s, c).Done? && s.pool.activeLiquidity == s.pool.liquidity
    ensures DoRemove(s, c).state.pool.activeLiquidity == DoRemove(s, c).state.pool.liquidity
  {
    hide PriceAt, TickAt, LiquidityMath.AmountsForLiquidity, HedgeRelease, Tokens.TransferIfPositive, FeeGrowthInside,
      TruncDiv, Fees.PositiveHistory, Accrual, AccrualFits, Without, ValidPosition;
  }

  lemma OthersKeepActive(s: State, e: TimedCall)
    requires Valid(s) && !e.call.AddLiquidity? && !e.call.RemoveLiquidity? && Execute(s, e.now, e.call).Done?
    ensures var p := Step(s, e.now, e.call).pool;
      p.activeLiquidity == s.pool.activeLiquidity && p.liquidity == s.pool.liquidity
  {
    hide Valid, DoAdd, DoRemove, DoCollect, DoSwap, DoUpdateFee;
    if e.call.Swap? {
      SwapLeavesPool(s, e.now, e.call);
    } else {
      QuietLeavesPool(s, e.now, e.call);
    }
  }

  lemma StepKeepsActive(s: State, e: TimedCall)
    requires Valid(s) && s.pool.activeLiquidity == s.pool.liquidity
    ensures Step(s, e.now, e.call).pool.activeLiquidity == Step(s, e.now, e.call).pool.liquidity
  {
    hide Valid, DoAdd, DoRemove, DoCollect, DoSwap, DoUpdateFee;
    if Execute(s, e.now, e.call).Done? {
      if e.call.AddLiquidity? {
        AddKeepsActive(s, e.now, e.call);
      } else if e.call.RemoveLiquidity? {
        RemoveKeepsActive(s, e.call);
      } else {
        OthersKeepActive(s, e);
      }
    }
  }

  /** The pool's active liquidity never differs from its liquidity. */
  lemma {:induction false} RunKeepsActive(s: State, calls: seq<TimedCall>)
    requires Valid(s) && s.pool.activeLiquidity == s.pool.liquidity
    ensures Run(s, calls).pool.activeLiquidity == Run(s, calls).pool.liquidity
    decreases |calls|
  {
    hide Valid, Step;
    if calls != [] {
      RunKeepsActive(s, calls[..|calls| - 1]);
      StepKeepsActive(Run(s, calls[..|calls| - 1]), calls[|calls| - 1]);
    }
  }

  // ---------------------------------------------------------------- conservation

  function Caller(c: Call): Tokens.Address {
    if c.UpdateDynamicFee? || c.SetPaused? then CONTRACT else c.caller
  }

  lemma IfPositiveConserves(balances: Tokens.Balances, from: Tokens.Address, to: Tokens.Address, amount: int, n: nat)
    requires from < n && to < n && Tokens.TransferIfPositive(balances, from, to, amount).Some?
    ensures Tokens.TotalBelow(Tokens.TransferIfPositive(balances, from, to, amount).value, n) == Tokens.TotalBelow(balances, n)
  {
    hide Tokens.Transfer, Tokens.TotalBelow;
    if amount > 0 {
      Tokens.TransferConserves(balances, from, to, amount, n);
    }
  }

  lemma StepConserves(s: State, e: TimedCall, n: nat)
    requires Valid(s) && Caller(e.call) < n
    ensures Tokens.TotalBelow(Step(s, e.now, e.call).tokensA, n) == Tokens.TotalBelow(s.tokensA, n)
    ensures Tokens.TotalBelow(Step(s, e.now, e.call).tokensB, n) == Tokens.TotalBelow(s.tokensB, n)
  {
    hide PriceAt, TickAt, LiquidityMath.AmountsForLiquidity, LiquidityMath.LiquidityFromAmounts, EstimateIlBps,
      HedgeReserve, HedgeRelease, Tokens.TransferIfPositive, Tokens.Transfer, Tokens.TotalBelow, FeeGrowthInside, TruncDiv,
      Valid, Accrual, AccrualFits, Without, Deactivate, Activate, ComputeSwapStep, AccumulateFeeGrowth, MovedOutside,
      MovedPool, TargetPrice, Fees.DynamicFee, Accrued;
    var c := e.call;
    if Execute(s, e.now, c).Done? {
      var r := Execute(s, e.now, c).receipt;
      match c {
        case AddLiquidity(_, _, _, _, _, _, _) =>
          IfPositiveConserves(s.tokensA, c.caller, CONTRACT, r.amountA, n);
          IfPositiveConserves(s.tokensB, c.caller, CONTRACT, r.amountB, n);
        case RemoveLiquidity(_, _, _, _, _) =>
          IfPositiveConserves(s.tokensA, CONTRACT, c.caller, r.amountA, n);
          IfPositiveConserves(s.tokensB, CONTRACT, c.caller, r.amountB, n);
        case CollectFees(_, _) =>
          IfPositiveConserves(s.tokensA, CONTRACT, c.caller, r.amountA, n);
          IfPositiveConserves(s.tokensB, CONTRACT, c.caller, r.amountB, n);
        case Swap(_, zeroForOne, _, _) =>
          Tokens.TransferConserves(if zeroForOne then s.tokensA else s.tokensB, c.caller, CONTRACT, r.amountIn, n);
          Tokens.TransferConserves(if zeroForOne then s.tokensB else s.tokensA, CONTRACT, c.caller, r.amountOut, n);
        case UpdateDynamicFee =>
        case SetPaused(_) =>
      }
    }
  }

  /** No run of the pool creates or destroys either token. */
  lemma {:induction false} TokensConserved(s: State, calls: seq<TimedCall>, n: nat)
    requires Valid(s) && forall i :: 0 <= i < |calls| ==> Caller(calls[i].call) < n
    ensures Tokens.TotalBelow(Run(s, calls).tokensA, n) == Tokens.TotalBelow(s.tokensA, n)
    ensures Tokens.TotalBelow(Run(s, calls).tokensB, n) == Tokens.TotalBelow(s.tokensB, n)
    decreases |calls|
  {
    hide Valid, Step, Tokens.TotalBelow, Caller;
    if calls != [] {
      var front, last := calls[..|calls| - 1], calls[|calls| - 1];
      TokensConserved(s, front, n);
      StepConserves(Run(s, front), last, n);
    }
  }
}
