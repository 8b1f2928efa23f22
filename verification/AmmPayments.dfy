/** Who pays and who is paid: every balance follows the receipts of the calls, and the receipts follow the
    liquidity curve and the growth of the fees. */
module AmmPayments {
  import opened Common
  import opened FixedPoint
  import opened TickMap
  import opened SwapMath
  import opened IlHedge
  import opened Amm
  import opened AmmEffects
  import opened FeeLedger
  import opened FeeBound
  import opened FeePayouts
  import AmmRuns
  import Withdrawals
  import LiquidityMath
  import Fees
  import Tokens = Ledger

  // ---------------------------------------------------------------- balances follow receipts

  /** A collection pays the position's owner what the receipt says of either token, and touches neither the
      pool nor any other position. */
  lemma CollectEffect(s: State, c: Call)
    requires Valid(s) && c.CollectFees? && DoCollect(s, c).Done?
    ensures var t, r, id := DoCollect(s, c).state, DoCollect(s, c).receipt, c.positionId;
      && r.Collected? && id in s.positions && s.positions[id].owner == c.caller
      && Tokens.Moved(s.tokensA, t.tokensA, CONTRACT, c.caller, Max(r.amountA, 0))
      && Tokens.Moved(s.tokensB, t.tokensB, CONTRACT, c.caller, Max(r.amountB, 0))
      && t.pool == s.pool && t.outside == s.outside && t.samples == s.samples
      && t.positions - {id} == s.positions - {id}
  {
    hide Valid, InsideNow, Accrual, AccrualFits, Tokens.TransferIfPositive, Tokens.Moved;
    var r := DoCollect(s, c).receipt;
    IfPositiveMoves(s.tokensA, CONTRACT, c.caller, r.amountA);
    IfPositiveMoves(s.tokensB, CONTRACT, c.caller, r.amountB);
  }

  lemma IfPositiveMoves(balances: Tokens.Balances, from: Tokens.Address, to: Tokens.Address, amount: int)
    requires Tokens.TransferIfPositive(balances, from, to, amount).Some?
    ensures Tokens.Moved(balances, Tokens.TransferIfPositive(balances, from, to, amount).value, from, to, Max(amount, 0))
  {
    if amount > 0 {
      Tokens.TransferMoves(balances, from, to, amount);
    }
  }

  function TokensOf(s: State, isA: bool): Tokens.Balances {
    if isA then s.tokensA else s.tokensB
  }

  /** What the receipt of a call adds to a holder's balance. */
  function Flow(s: State, e: TimedCall, isA: bool, who: Tokens.Address): int
    requires Valid(s)
  {
    hide Valid, DoAdd, DoRemove, DoCollect, DoSwap, DoUpdateFee;
    match Execute(s, e.now, e.call)
    case Done(_, Added(_, a, b, _)) => Tokens.Shift(Payer(e.call), CONTRACT, if isA then a else b, who)
    case Done(_, Removed(a, b, _, _)) => Tokens.Shift(CONTRACT, Payer(e.call), if isA then a else b, who)
    case Done(_, Collected(a, b)) => Tokens.Shift(CONTRACT, Payer(e.call), Max(if isA then a else b, 0), who)
    case Done(_, Swapped(amountIn, amountOut, _, _, _)) =>
      if e.call.Swap? && e.call.zeroForOne == isA then Tokens.Shift(Payer(e.call), CONTRACT, amountIn, who)
      else Tokens.Shift(CONTRACT, Payer(e.call), amountOut, who)
    case _ => 0
  }

  function Payer(c: Call): Tokens.Address {
    if c.UpdateDynamicFee? || c.SetPaused? then CONTRACT else c.caller
  }

  function TotalFlow(s: State, calls: seq<TimedCall>, isA: bool, who: Tokens.Address): int
    requires Valid(s)
    decreases |calls|
  {
    hide Valid, Run, Flow;
    if calls == [] then 0
    else
      var last, front := calls[|calls| - 1], calls[..|calls| - 1];
      TotalFlow(s, front, isA, who) + Flow(Run(s, front), last, isA, who)
  }

  lemma AddFlows(s: State, e: TimedCall, isA: bool, who: Tokens.Address)
    requires Valid(s) && e.call.AddLiquidity? && Execute(s, e.now, e.call).Done?
    ensures Tokens.BalanceOf(TokensOf(Step(s, e.now, e.call), isA), who)
         == Tokens.BalanceOf(TokensOf(s, isA), who) + Flow(s, e, isA, who)
  {
    hide Valid, DoAdd, DoRemove, DoCollect, DoSwap, DoUpdateFee, Tokens.BalanceOf;
    AddEffect(s, e.now, e.call);
  }

  lemma RemoveFlows(s: State, e: TimedCall, isA: bool, who: Tokens.Address)
    requires Valid(s) && e.call.RemoveLiquidity? && Execute(s, e.now, e.call).Done?
    ensures Tokens.BalanceOf(TokensOf(Step(s, e.now, e.call), isA), who)
         == Tokens.BalanceOf(TokensOf(s, isA), who) + Flow(s, e, isA, who)
  {
    hide Valid, DoAdd, DoRemove, DoCollect, DoSwap, DoUpdateFee, Tokens.BalanceOf;
    RemoveEffect(s, e.call);
  }

  lemma CollectFlows(s: State, e: TimedCall, isA: bool, who: Tokens.Address)
    requires Valid(s) && e.call.CollectFees? && Execute(s, e.now, e.call).Done?
    ensures Tokens.BalanceOf(TokensOf(Step(s, e.now, e.call), isA), who)
         == Tokens.BalanceOf(TokensOf(s, isA), who) + Flow(s, e, isA, who)
  {
    hide Valid, DoAdd, DoRemove, DoCollect, DoSwap, DoUpdateFee, Tokens.BalanceOf;
    CollectEffect(s, e.call);
  }

  lemma SwapFlows(s: State, e: TimedCall, isA: bool, who: Tokens.Address)
    requires Valid(s) && e.call.Swap? && Execute(s, e.now, e.call).Done?
    ensures Tokens.BalanceOf(TokensOf(Step(s, e.now, e.call), isA), who)
         == Tokens.BalanceOf(TokensOf(s, isA), who) + Flow(s, e, isA, who)
  {
    hide Valid, DoAdd, DoRemove, DoCollect, DoSwap, DoUpdateFee, Tokens.BalanceOf;
    SwapEffect(s, e.now, e.call);
  }

  lemma StepFlows(s: State, e: TimedCall, isA: bool, who: Tokens.Address)
    requires Valid(s)
    ensures Tokens.BalanceOf(TokensOf(Step(s, e.now, e.call), isA), who)
         == Tokens.BalanceOf(TokensOf(s, isA), who) + Flow(s, e, isA, who)
  {
    hide Valid, DoAdd, DoRemove, DoCollect, DoSwap, DoUpdateFee, Tokens.BalanceOf;
    if Execute(s, e.now, e.call).Done? {
      match e.call {
        case AddLiquidity(_, _, _, _, _, _, _) => AddFlows(s, e, isA, who);
        case RemoveLiquidity(_, _, _, _, _) => RemoveFlows(s, e, isA, who);
        case CollectFees(_, _) => CollectFlows(s, e, isA, who);
        case Swap(_, _, _, _) => SwapFlows(s, e, isA, who);
        case UpdateDynamicFee => FeeUpdateFlows(s, e.now);
        case SetPaused(_) =>
      }
    }
  }

  lemma FeeUpdateFlows(s: State, now: nat)
    requires Valid(s) && DoUpdateFee(s, now).Done?
    ensures var t := DoUpdateFee(s, now).state; t.tokensA == s.tokensA && t.tokensB == s.tokensB
    ensures DoUpdateFee(s, now).receipt.FeeUpdated?
  {
    hide Valid, Fees.DynamicFee;
  }

  /** Over any run, every holder's balance of either token is what it was and what the receipts say: what the
      callers paid reached the contract, and what it paid reached the callers. */
  lemma {:induction false} BalancesFollowReceipts(s: State, calls: seq<TimedCall>, isA: bool, who: Tokens.Address)
    requires Valid(s)
    ensures Tokens.BalanceOf(TokensOf(Run(s, calls), isA), who)
         == Tokens.BalanceOf(TokensOf(s, isA), who) + TotalFlow(s, calls, isA, who)
    decreases |calls|
  {
    hide Valid, Step, Flow, Tokens.BalanceOf;
    if calls != [] {
      var last, front := calls[|calls| - 1], calls[..|calls| - 1];
      BalancesFollowReceipts(s, front, isA, who);
      StepFlows(Run(s, front), last, isA, who);
    }
  }

  // ---------------------------------------------------------------- collections

  /** What a collection moves into a holder's balance. */
  function CollectedInto(s: State, e: TimedCall, isA: bool, who: Tokens.Address): int
    requires Valid(s)
  {
    if e.call.CollectFees? then
      Tokens.BalanceOf(TokensOf(Step(s, e.now, e.call), isA), who) - Tokens.BalanceOf(TokensOf(s, isA), who)
    else 0
  }

  function TotalCollectedInto(s: State, calls: seq<TimedCall>, isA: bool, who: Tokens.Address): int
    requires Valid(s)
    decreases |calls|
  {
    hide Valid, Run, CollectedInto;
    if calls == [] then 0
    else
      var last, front := calls[|calls| - 1], calls[..|calls| - 1];
      TotalCollectedInto(s, front, isA, who) + CollectedInto(Run(s, front), last, isA, who)
  }

  /** Fees paid out to the collections of one caller. */
  function PaidOutTo(s: State, calls: seq<TimedCall>, isA: bool, who: Tokens.Address): int
    requires Valid(s)
    decreases |calls|
  {
    hide Valid, Run, PaidOf;
    if calls == [] then 0
    else
      var last, front := calls[|calls| - 1], calls[..|calls| - 1];
      PaidOutTo(s, front, isA, who)
        + (if last.call.CollectFees? && last.call.caller == who then PaidOf(Run(s, front), last, isA) else 0)
  }

  lemma CollectionReaches(s: State, e: TimedCall, isA: bool, who: Tokens.Address)
    requires Valid(s) && NothingNegative(s, isA) && who != CONTRACT
    requires e.call.CollectFees? ==> e.call.caller != CONTRACT
    ensures CollectedInto(s, e, isA, who)
         == if e.call.CollectFees? && e.call.caller == who then PaidOf(s, e, isA) else 0
    ensures CollectedInto(s, e, isA, CONTRACT) == -PaidOf(s, e, isA)
  {
    hide Valid, DoCollect, Tokens.BalanceOf, NothingNegative;
    if e.call.CollectFees? && Execute(s, e.now, e.call).Done? {
      CollectEffect(s, e.call);
      CollectPaysAll(s, e, isA);
    }
  }

  /** Over any run the fees paid out by collections leave the contract and reach the callers, each his own. */
  lemma {:induction false} CollectionsReachCallers(s: State, calls: seq<TimedCall>, isA: bool, who: Tokens.Address)
    requires Valid(s) && NothingNegative(s, isA) && who != CONTRACT
    requires forall i :: 0 <= i < |calls| && calls[i].call.CollectFees? ==> calls[i].call.caller != CONTRACT
    ensures TotalCollectedInto(s, calls, isA, who) == PaidOutTo(s, calls, isA, who)
    ensures TotalCollectedInto(s, calls, isA, CONTRACT) == -PaidOut(s, calls, isA)
    decreases |calls|
  {
    hide Valid, Step, CollectedInto, PaidOf, NothingNegative;
    if calls != [] {
      var last, front := calls[|calls| - 1], calls[..|calls| - 1];
      CollectionsReachCallers(s, front, isA, who);
      RunSettles(s, front, isA);
      CollectionReaches(Run(s, front), last, isA, who);
    }
  }

  // ---------------------------------------------------------------- what a position earns

  /** The call names the position. */
  predicate Names(c: Call, id: nat) {
    (c.RemoveLiquidity? || c.CollectFees?) && c.positionId == id
  }

  lemma StepLeavesPosition(s: State, e: TimedCall, id: nat)
    requires Valid(s) && id in s.positions && id <= s.positionCount && !Names(e.call, id)
    ensures var t := Step(s, e.now, e.call);
      id in t.positions && id <= t.positionCount && t.positions[id] == s.positions[id]
  {
    hide Valid, DoAdd, DoRemove, DoCollect, DoSwap, DoUpdateFee;
    var c := e.call;
    if Execute(s, e.now, c).Done? {
      if c.AddLiquidity? {
        Withdrawals.AddKeepsOthers(s, e.now, c, id);
      } else if c.RemoveLiquidity? || c.CollectFees? {
        CreditedPosition(s, e, true);
      } else if c.Swap? {
        AmmRuns.SwapKeepsPositions(s, e.now, c);
        Withdrawals.SwapKeepsCount(s, e.now, c);
      } else {
        Withdrawals.QuietKeepsPositions(s, e);
      }
    }
  }

  lemma {:induction false} RunLeavesPosition(s: State, calls: seq<TimedCall>, id: nat)
    requires Valid(s) && id in s.positions && id <= s.positionCount
    requires forall i :: 0 <= i < |calls| ==> !Names(calls[i].call, id)
    ensures var t := Run(s, calls); id in t.positions && id <= t.positionCount && t.positions[id] == s.positions[id]
    decreases |calls|
  {
    hide Valid, Step;
    if calls != [] {
      var last, front := calls[|calls| - 1], calls[..|calls| - 1];
      RunLeavesPosition(s, front, id);
      StepLeavesPosition(Run(s, front), last, id);
    }
  }

  /** The first collection after a deposit pays, in each token, the floor of the position's liquidity times the
      fee growth of exactly those swaps since then that ended in its range. */
  lemma FirstCollection(s: State, now: nat, add: Call, calls: seq<TimedCall>, e: TimedCall, isA: bool)
    requires Valid(s) && add.AddLiquidity? && DoAdd(s, now, add).Done?
    requires forall i :: 0 <= i < |calls| ==> !Names(calls[i].call, s.positionCount + 1)
    requires var t := Step(s, now, add);
      e.call.CollectFees? && e.call.positionId == s.positionCount + 1 && Execute(Run(t, calls), e.now, e.call).Done?
    ensures DoAdd(s, now, add).receipt.Added?
    ensures var t, l := Step(s, now, add), DoAdd(s, now, add).receipt.liquidity;
      var growth, paid := FeeLedger.Ledger(t, calls, add.tickLower, add.tickUpper, isA), PaidOf(Run(t, calls), e, isA);
      paid * Q64 <= l * growth < (paid + 1) * Q64
  {
    hide Valid, DoAdd, Run, FeeLedger.Ledger, Execute, FeeGrowthInside, PriceAt, LiquidityMath.AmountsForLiquidity, Step;
    var t, id := Step(s, now, add), s.positionCount + 1;
    assert Execute(s, now, add) == DoAdd(s, now, add) by {
      ExecuteIsAdd(s, now, add);
    }
    FreshPosition(s, now, add, isA);
    RunLeavesPosition(t, calls, id);
    var u, p := Run(t, calls), t.positions[id];
    InsideFollowsLedger(t, calls, add.tickLower, add.tickUpper, isA);
    CollectsAccrual(u, e, isA);
    var d := InsideNow(u, p, isA) - InsideLast(p, isA);
    assert d == FeeLedger.Ledger(t, calls, add.tickLower, add.tickUpper, isA);
    FloorOfGrowth(p.liquidity, InsideNow(u, p, isA), InsideLast(p, isA));
  }

  lemma ExecuteIsAdd(s: State, now: nat, c: Call)
    requires Valid(s) && c.AddLiquidity?
    ensures Execute(s, now, c) == DoAdd(s, now, c)
    ensures DoAdd(s, now, c).Done? ==> Step(s, now, c) == DoAdd(s, now, c).state
  {
    hide Valid, DoAdd;
  }

  lemma FreshPosition(s: State, now: nat, add: Call, isA: bool)
    requires Valid(s) && add.AddLiquidity? && DoAdd(s, now, add).Done?
    ensures DoAdd(s, now, add).receipt.Added? && add.tickLower <= add.tickUpper
    ensures var t, id := Step(s, now, add), s.positionCount + 1;
      && id in t.positions && id <= t.positionCount
      && t.positions[id].tickLower == add.tickLower && t.positions[id].tickUpper == add.tickUpper
      && t.positions[id].liquidity == DoAdd(s, now, add).receipt.liquidity > 0
      && Owed(t.positions[id], isA) == 0
      && InsideLast(t.positions[id], isA) == InsideNow(t, t.positions[id], isA)
  {
    hide Valid, DoAdd, PriceAt, LiquidityMath.AmountsForLiquidity, InsideNow;
    AddAmounts(s, now, add);
    AddEffect(s, now, add);
    TicksInOrder(s, now, add);
    Withdrawals.AddKeepsOthers(s, now, add, s.positionCount);
    NewClaim(s, At(now, add), isA);
  }

  lemma CollectsAccrual(s: State, e: TimedCall, isA: bool)
    requires Valid(s) && e.call.CollectFees? && Execute(s, e.now, e.call).Done?
    ensures e.call.positionId in s.positions
    ensures var p := s.positions[e.call.positionId];
      PaidOf(s, e, isA) == Owed(p, isA) + Accrual(p.liquidity, InsideNow(s, p, isA), InsideLast(p, isA))
  {
    hide Valid, InsideNow, Accrual, AccrualFits, Tokens.TransferIfPositive;
  }

  lemma FloorOfGrowth(liquidity: int, now: int, last: int)
    requires liquidity > 0 && now >= last
    ensures var credit := Accrual(liquidity, now, last);
      credit * Q64 <= liquidity * (now - last) < (credit + 1) * Q64
  {
    MulNonNegative(liquidity, now - last);
    DivBounds(liquidity * (now - last), Q64);
  }

  // ---------------------------------------------------------------- receipts along the curve

  /** The price a swap heads for is that of the next tick down or up, kept inside the table. */
  lemma TargetIsNextTick(pool: PoolState)
    requires ValidPool(pool)
    ensures Supported(TickAt(pool.sqrtPrice)) && pool.currentTick == TickAt(pool.sqrtPrice)
    ensures TargetPrice(pool, true) == PriceAt(Max(TickAt(pool.sqrtPrice) - 1, MIN_TICK))
    ensures TargetPrice(pool, false) == PriceAt(Min(TickAt(pool.sqrtPrice) + 1, MAX_TICK))
  {
    hide PriceAt, TickAt;
    TickAtSupported(pool.sqrtPrice);
  }

  /** A sale of token A from inside the table ends exactly at the price of the next tick down, however little is
      sold, and pays the caller the floor of the pool's liquidity times that fall in token B; he pays no more token A than the
      curve asks for, and what is left of the input after the fee at most. */
  lemma SaleEffect(s: State, now: nat, c: Call)
    requires Valid(s) && c.Swap? && c.zeroForOne && DoSwap(s, now, c).Done? && s.pool.sqrtPrice >= MIN_PRICE
    ensures Supported(TickAt(s.pool.sqrtPrice))
    ensures var t, r := DoSwap(s, now, c).state, DoSwap(s, now, c).receipt;
      var fall := s.pool.sqrtPrice - t.pool.sqrtPrice;
      && r.Swapped? && fall >= 0
      && t.pool.sqrtPrice == PriceAt(Max(TickAt(s.pool.sqrtPrice) - 1, MIN_TICK))
      && IsFloor(r.amountOut, s.pool.liquidity * fall, Q64)
      && r.amountIn <= c.amountIn - r.feePaid
      && r.amountIn * t.pool.sqrtPrice * s.pool.sqrtPrice <= s.pool.liquidity * fall * Q64
      && Tokens.Moved(s.tokensA, t.tokensA, c.caller, CONTRACT, r.amountIn)
      && Tokens.Moved(s.tokensB, t.tokensB, CONTRACT, c.caller, r.amountOut)
  {
    hide ComputeSwapStep, TargetPrice, TickAt, PriceAt, ValidPosition, Fees.PositiveHistory, MovedOutside,
      AccumulateFeeGrowth, Tokens.Transfer, Tokens.Moved, IsFloor, SellStep, BuyStep;
    AmmRuns.TargetOnTheRightSide(s.pool, true);
    TargetIsNextTick(s.pool);
    SwapEffect(s, now, c);
    var p, target, l := s.pool.sqrtPrice, TargetPrice(s.pool, true), s.pool.liquidity;
    var fee := c.amountIn * s.pool.dynamicFeeBps / FEE_DENOMINATOR;
    FeeWithinInput(c.amountIn, s.pool.dynamicFeeBps);
    MulNonNegative(c.amountIn, s.pool.dynamicFeeBps);
    if p > target {
      StepIsSale(p, target, l, c.amountIn, s.pool.dynamicFeeBps);
      SellPaysAlongCurve(p, target, l, c.amountIn - fee, fee);
      SaleReachesTarget(p, target, l, c.amountIn - fee, fee);
      SellTakesAlongCurve(p, target, l, c.amountIn - fee, fee);
      SoldWithin(p, target, l, c.amountIn - fee, fee);
    } else {
      AmmRuns.NoMoveNoTokens(target, l, c.amountIn, s.pool.dynamicFeeBps);
      assert l * 0 == 0;
      assert IsFloor(0, 0, Q64) by {
        NothingFloors();
      }
    }
  }

  lemma NothingFloors()
    ensures IsFloor(0, 0, Q64)
  {
  }

  lemma SoldWithin(current: int, target: int, liquidity: int, afterFee: int, fee: int)
    requires I128_MAX >= current > target > 0 && liquidity >= 0 && afterFee >= 0
    ensures var s := SellStep(current, target, liquidity, afterFee, fee); s.amountIn <= afterFee && s.feePaid == fee
  {
    hide SatMul, TruncDiv, SellPrice;
  }

  lemma StepIsSale(current: int, target: int, liquidity: int, amount: int, feeBps: nat)
    requires current > target >= 0 && amount >= 0 && feeBps <= FEE_DENOMINATOR
    requires ComputeSwapStep(current, target, liquidity, amount, feeBps).Ok?
    ensures var fee := amount * feeBps / FEE_DENOMINATOR;
      && amount - fee >= 0
      && ComputeSwapStep(current, target, liquidity, amount, feeBps)
         == Ok(SellStep(current, target, liquidity, amount - fee, fee))
  {
    hide SatMul, TruncDiv, BuyStep, SellStep;
    FeeWithinInput(amount, feeBps);
    MulNonNegative(amount, feeBps);
  }

  /** A purchase of token A below the top of the table: what the caller pays in token B, where it takes the
      price, and what he gets in token A, all along the liquidity. */
  lemma PurchaseEffect(s: State, now: nat, c: Call)
    requires Valid(s) && c.Swap? && !c.zeroForOne && DoSwap(s, now, c).Done? && s.pool.sqrtPrice <= MAX_PRICE
    ensures Supported(TickAt(s.pool.sqrtPrice))
    ensures var t, r, l := DoSwap(s, now, c).state, DoSwap(s, now, c).receipt, s.pool.liquidity;
      var target := PriceAt(Min(TickAt(s.pool.sqrtPrice) + 1, MAX_TICK));
      var rise := t.pool.sqrtPrice - s.pool.sqrtPrice;
      && r.Swapped? && rise >= 0 && l > 0
      && (t.pool.sqrtPrice < target ==>
            r.amountIn == c.amountIn - r.feePaid && IsFloor(rise, r.amountIn * Q64, l))
      && (r.amountIn < c.amountIn - r.feePaid ==>
            t.pool.sqrtPrice == target && IsFloor(r.amountIn, l * rise, Q64))
      && r.amountIn * Q64 <= l * (target - s.pool.sqrtPrice)
      && r.amountOut * t.pool.sqrtPrice * s.pool.sqrtPrice <= l * rise * Q64
      && (Fits(l * rise) && Fits(l * rise / s.pool.sqrtPrice * Q64) ==>
            l * rise * Q64 < (r.amountOut + 1) * t.pool.sqrtPrice * s.pool.sqrtPrice + Q64 * s.pool.sqrtPrice)
      && Tokens.Moved(s.tokensB, t.tokensB, c.caller, CONTRACT, r.amountIn)
      && Tokens.Moved(s.tokensA, t.tokensA, CONTRACT, c.caller, r.amountOut)
  {
    hide ComputeSwapStep, TargetPrice, TickAt, PriceAt, ValidPosition, Fees.PositiveHistory, MovedOutside,
      AccumulateFeeGrowth, Tokens.Transfer, Tokens.Moved, IsFloor, SellStep, BuyStep;
    AmmRuns.TargetOnTheRightSide(s.pool, false);
    TargetIsNextTick(s.pool);
    SwapEffect(s, now, c);
    var p, target, l := s.pool.sqrtPrice, TargetPrice(s.pool, false), s.pool.liquidity;
    var fee := c.amountIn * s.pool.dynamicFeeBps / FEE_DENOMINATOR;
    AmmRuns.StepIsBuy(p, target, l, c.amountIn, s.pool.dynamicFeeBps);
    BuyTakesAlongCurve(p, target, l, c.amountIn - fee, fee);
    BuyPaysAlongCurve(p, target, l, c.amountIn - fee, fee);
    BoughtFee(p, target, l, c.amountIn - fee, fee);
  }

  lemma BoughtFee(current: int, target: int, liquidity: int, afterFee: int, fee: int)
    requires 0 <= current <= target
    ensures BuyStep(current, target, liquidity, afterFee, fee).feePaid == fee
  {
    hide SatMul, TruncDiv, BuyPrice;
  }

  // ---------------------------------------------------------------- deposits and withdrawals along the curve

  /** What a liquidity is worth between two prices at a third: in token B the exact floor, in token A the floor of
      two divisions, never more than the curve and, where no product saturates, short of it by rounding only. */
  predicate Worth(liquidity: int, lower: int, upper: int, current: int, a: int, b: int)
    requires upper > 0
  {
    var p := Min(Max(current, lower), upper);
    && b * Q64 <= liquidity * (p - lower) < (b + 1) * Q64
    && a * p * upper <= liquidity * (upper - p) * Q64
    && (Fits(liquidity * (upper - p)) && Fits(liquidity * (upper - p) / upper * Q64) ==>
          liquidity * (upper - p) * Q64 < (a + 1) * p * upper + Q64 * upper)
  }

  lemma AmountsAlongCurve(liquidity: int, lower: int, upper: int, current: int)
    requires liquidity >= 0 && 0 < lower < upper && LiquidityMath.AmountsForLiquidity(liquidity, lower, upper, current).Ok?
    ensures var (a, b) := LiquidityMath.AmountsForLiquidity(liquidity, lower, upper, current).value;
      Worth(liquidity, lower, upper, current, a, b)
  {
    hide SatMul, TruncDiv;
    var p := LiquidityMath.Clamp(current, lower, upper);
    AlongCurveBounds(liquidity, upper - p, upper, p);
    MulNonNegative(liquidity, p - lower);
    DivBounds(liquidity * (p - lower), Q64);
    assert p == lower ==> liquidity * (p - lower) == 0;
    if p == upper {
      assert liquidity * (upper - p) == 0;
    } else {
      assert LiquidityMath.AmountA(liquidity, upper, p) == AlongCurve(liquidity, upper - p, upper, p);
    }
  }

  /** A deposit buys what its offer pays for and takes what that liquidity is worth. */
  lemma DepositAlongCurve(s: State, now: nat, c: Call)
    requires Valid(s) && c.AddLiquidity? && DoAdd(s, now, c).Done?
    ensures Supported(c.tickLower) && Supported(c.tickUpper) && PriceAt(c.tickUpper) > 0
    ensures var r, lower, upper := DoAdd(s, now, c).receipt, PriceAt(c.tickLower), PriceAt(c.tickUpper);
      && r.Added?
      && LiquidityMath.LiquidityFromAmounts(c.desiredA, c.desiredB, lower, upper, s.pool.sqrtPrice) == Ok(r.liquidity)
      && Worth(r.liquidity, lower, upper, s.pool.sqrtPrice, r.amountA, r.amountB)
  {
    hide Valid, DoAdd, PriceAt, LiquidityMath.AmountsForLiquidity, LiquidityMath.LiquidityFromAmounts, Worth;
    AddAmounts(s, now, c);
    AddEffect(s, now, c);
    TicksInOrder(s, now, c);
    Withdrawals.BoughtByOffer(s, now, c);
    PriceRange(c.tickLower);
    PriceRange(c.tickUpper);
    PriceStrictlyIncreasing(c.tickLower, c.tickUpper);
    AmountsAlongCurve(DoAdd(s, now, c).receipt.liquidity, PriceAt(c.tickLower), PriceAt(c.tickUpper), s.pool.sqrtPrice);
  }

  /** A withdrawal pays what its liquidity is worth, and with it the floor of the reserve's share for the part of
      the position that is withdrawn. */
  lemma WithdrawalAlongCurve(s: State, c: Call)
    requires Valid(s) && c.RemoveLiquidity? && DoRemove(s, c).Done?
    ensures c.positionId in s.positions
    ensures var p, r := s.positions[c.positionId], DoRemove(s, c).receipt;
      && Supported(p.tickLower) && Supported(p.tickUpper) && PriceAt(p.tickUpper) > 0 && r.Removed?
      && Worth(c.liquidity, PriceAt(p.tickLower), PriceAt(p.tickUpper), s.pool.sqrtPrice,
               r.amountA - r.hedgeA, r.amountB - r.hedgeB)
      && r.hedgeA * p.liquidity <= s.pool.ilReserveA * c.liquidity < (r.hedgeA + 1) * p.liquidity
      && r.hedgeB * p.liquidity <= s.pool.ilReserveB * c.liquidity < (r.hedgeB + 1) * p.liquidity
  {
    hide DoRemove, PriceAt, TickAt, LiquidityMath.AmountsForLiquidity, Fees.PositiveHistory, Worth, HedgeRelease;
    RemoveEffect(s, c);
    ReleaseOf(s, c);
    var p := s.positions[c.positionId];
    PriceRange(p.tickLower);
    PriceRange(p.tickUpper);
    PriceStrictlyIncreasing(p.tickLower, p.tickUpper);
    AmountsAlongCurve(c.liquidity, PriceAt(p.tickLower), PriceAt(p.tickUpper), s.pool.sqrtPrice);
    ReleaseIsShare(s.pool.ilReserveA, c.liquidity, p.liquidity);
    ReleaseIsShare(s.pool.ilReserveB, c.liquidity, p.liquidity);
  }

  lemma ReleaseOf(s: State, c: Call)
    requires Valid(s) && c.RemoveLiquidity? && DoRemove(s, c).Done?
    ensures c.positionId in s.positions && DoRemove(s, c).receipt.Removed?
    ensures var p, r := s.positions[c.positionId], DoRemove(s, c).receipt;
      && r.hedgeA == HedgeRelease(s.pool.ilReserveA, c.liquidity, p.liquidity)
      && r.hedgeB == HedgeRelease(s.pool.ilReserveB, c.liquidity, p.liquidity)
  {
    hide Valid, PriceAt, LiquidityMath.AmountsForLiquidity, HedgeRelease, Tokens.TransferIfPositive, InsideNow, Accrual,
      AccrualFits, Deactivate, Without;
  }

  /** A deposit locks one part in twenty of each amount exactly when the estimated loss of its range at the current
      price is at least two percent, and otherwise nothing. */
  lemma DepositLocks(s: State, now: nat, c: Call)
    requires Valid(s) && c.AddLiquidity? && DoAdd(s, now, c).Done?
    ensures var t, r := DoAdd(s, now, c).state, DoAdd(s, now, c).receipt;
      var loss := EstimateIlBps(c.tickLower, c.tickUpper, s.pool.sqrtPrice);
      var a, b := t.pool.ilReserveA - s.pool.ilReserveA, t.pool.ilReserveB - s.pool.ilReserveB;
      && r.Added?
      && (loss > -200 ==> a == 0 && b == 0)
      && (loss <= -200 ==> 20 * a <= r.amountA < 20 * (a + 1) && 20 * b <= r.amountB < 20 * (b + 1))
  {
    hide DoAdd, PriceAt, EstimateIlBps, TickAt, Fees.PositiveHistory, ValidPosition, HedgeReserve;
    AddEffect(s, now, c);
    LossIsBounded(c.tickLower, c.tickUpper, s.pool.sqrtPrice);
    var r := DoAdd(s, now, c).receipt;
    ReserveIsOneInTwenty(EstimateIlBps(c.tickLower, c.tickUpper, s.pool.sqrtPrice), r.amountA, r.amountB);
    LocksHedged(s, now, c);
  }

  lemma LocksHedged(s: State, now: nat, c: Call)
    requires Valid(s) && c.AddLiquidity? && DoAdd(s, now, c).Done?
    ensures var t, r := DoAdd(s, now, c).state, DoAdd(s, now, c).receipt;
      && r.Added?
      && (t.pool.ilReserveA - s.pool.ilReserveA, t.pool.ilReserveB - s.pool.ilReserveB)
         == HedgeReserve(EstimateIlBps(c.tickLower, c.tickUpper, s.pool.sqrtPrice), r.amountA, r.amountB)
  {
    hide Valid, PriceAt, LiquidityMath.AmountsForLiquidity, LiquidityMath.LiquidityFromAmounts, EstimateIlBps, HedgeReserve,
      Tokens.TransferIfPositive, NewPosition;
  }

  // ---------------------------------------------------------------- the dynamic fee

  /** An update changes the pool's fee alone, to what the samples of the last 24 hours call for. */
  lemma UpdateEffect(s: State, now: nat)
    requires Valid(s) && DoUpdateFee(s, now).Done?
    ensures var t := DoUpdateFee(s, now).state;
      && t == s.(pool := s.pool.(dynamicFeeBps := t.pool.dynamicFeeBps))
      && Fees.FeeFor(Fees.Collected(s.samples, now / 3_600, 24), s.pool.feeTier, t.pool.dynamicFeeBps)
  {
    hide Fees.DynamicFee, Fees.FeeFor, Fees.Collected, ValidPool, ValidPosition, Fees.PositiveHistory;
    Fees.DynamicFeeIs(s.samples, now, s.pool.feeTier);
  }
}
