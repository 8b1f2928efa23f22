/** The AMM contract's entry points as they run: storage is read into locals, the locals are
    updated step by step, and everything is written back only if nothing aborts. */
module AmmContract {
  import opened Common
  import opened Ledger
  import opened FixedPoint
  import opened TickMap
  import opened SwapMath
  import opened IlHedge
  import opened Amm
  import LiquidityMath
  import Fees
  import AmmRuns

  datatype CallResult = Returned(receipt: Receipt) | Rejected(error: Error)

  /** What a call must do: reach the specified state and return its receipt, or change nothing. */
  ghost predicate Follows(o: Outcome, before: State, after: State, r: CallResult) {
    match o
    case Done(t, receipt) => after == t && r == Returned(receipt)
    case Failed(e) => after == before && r == Rejected(e)
  }

  /** The pool's own two tokens, found only with the lower address first: pools are stored under the pair
      as given at creation, and a swap looks for its two tokens in ascending order. */
  predicate FindsPool(tokenA: Address, tokenB: Address, tokenIn: Address, tokenOut: Address) {
    (if tokenIn < tokenOut then (tokenIn, tokenOut) else (tokenOut, tokenIn)) == (tokenA, tokenB)
  }

  /** A swap between two tokens, as a swap of the pool of tokens A and B. */
  function DoSwapTokens(
    s: State, tokenA: Address, tokenB: Address, now: nat,
    caller: Address, tokenIn: Address, tokenOut: Address, amountIn: int, minAmountOut: int): Outcome
    requires Valid(s)
  {
    if s.paused then Failed(Paused)
    else if amountIn <= 0 then Failed(InvalidAmount)
    else if !FindsPool(tokenA, tokenB, tokenIn, tokenOut) then Failed(PoolNotFound)
    else DoSwap(s, now, Call.Swap(caller, tokenIn < tokenOut, amountIn, minAmountOut))
  }

  /** A pool whose tokens were given in descending order takes deposits but never a swap. With ascending
      tokens, a swap takes in token A exactly when token A is the one paid in. */
  lemma SwapsNeedAscendingTokens(
    s: State, tokenA: Address, tokenB: Address, now: nat,
    caller: Address, tokenIn: Address, tokenOut: Address, amountIn: int, minAmountOut: int)
    requires Valid(s) && tokenA != tokenB
    ensures var o := DoSwapTokens(s, tokenA, tokenB, now, caller, tokenIn, tokenOut, amountIn, minAmountOut);
      o.Done? <==>
        && tokenA < tokenB && {tokenIn, tokenOut} == {tokenA, tokenB}
        && DoSwap(s, now, Call.Swap(caller, tokenIn == tokenA, amountIn, minAmountOut)).Done?
    ensures var o := DoSwapTokens(s, tokenA, tokenB, now, caller, tokenIn, tokenOut, amountIn, minAmountOut);
      o.Done? ==> o == DoSwap(s, now, Call.Swap(caller, tokenIn == tokenA, amountIn, minAmountOut))
  {
    hide Valid, ComputeSwapStep, TargetPrice, ApplySwap;
    assert tokenIn in {tokenIn, tokenOut} && tokenOut in {tokenIn, tokenOut};
    if FindsPool(tokenA, tokenB, tokenIn, tokenOut) {
      assert {tokenIn, tokenOut} == {tokenA, tokenB};
    }
    if {tokenIn, tokenOut} == {tokenA, tokenB} {
      assert tokenA in {tokenIn, tokenOut} && tokenB in {tokenIn, tokenOut};
    }
  }

  class Contract {
    const tokenA: Address
    const tokenB: Address
    var pool: PoolState
    var outside: OutsideFees
    var positions: map<nat, Position>
    var positionCount: nat
    var ownerIndex: map<Address, seq<nat>>
    var samples: map<nat, int>
    var tokensA: Balances
    var tokensB: Balances
    var paused: bool

    ghost function Stored(): State
      reads this
    {
      State(pool, outside, positions, positionCount, ownerIndex, samples, tokensA, tokensB, paused)
    }

    constructor (
      tokenA: Address, tokenB: Address, feeTier: nat, initialPrice: int, tokensA: Balances, tokensB: Balances)
      requires CreatePool(feeTier, initialPrice, tokensA, tokensB).Some?
      ensures Stored() == CreatePool(feeTier, initialPrice, tokensA, tokensB).value
      ensures Valid(Stored()) && this.tokenA == tokenA && this.tokenB == tokenB
    {
      hide TickAt;
      this.tokenA, this.tokenB := tokenA, tokenB;
      var tick := SqrtPriceToTick(initialPrice);
      pool := PoolState(initialPrice, tick, 0, feeTier, feeTier, 0, 0, 0, 0, 0, 0);
      outside, positions, positionCount, ownerIndex, samples := map[], map[], 0, map[], map[];
      this.tokensA, this.tokensB, paused := tokensA, tokensB, false;
    }

    method AddLiquidity(
      caller: Address, tickLower: int, tickUpper: int, desiredA: int, desiredB: int, minA: int, minB: int, now: nat)
      returns (r: CallResult)
      requires Valid(Stored())
      modifies this
      ensures Follows(
        DoAdd(old(Stored()), now, Call.AddLiquidity(caller, tickLower, tickUpper, desiredA, desiredB, minA, minB)),
        old(Stored()), Stored(), r)
    {
      hide PriceAt, TickAt, LiquidityMath.AmountsForLiquidity, LiquidityMath.LiquidityFromAmounts, EstimateIlBps,
        HedgeReserve, TransferIfPositive, FeeGrowthInside, Fees.PositiveHistory, Valid, Activate;
      if paused {
        return Rejected(Paused);
      }
      if tickLower >= tickUpper {
        return Rejected(InvalidTickRange);
      }
      if desiredA <= 0 && desiredB <= 0 {
        return Rejected(InvalidAmount);
      }
      if !Supported(tickLower) || !Supported(tickUpper) {
        return Rejected(InvalidTickRange);
      }
      var p := pool;
      var sqrtLower, sqrtUpper := PriceAt(tickLower), PriceAt(tickUpper);
      var liquidity := LiquidityMath.LiquidityFromAmounts(desiredA, desiredB, sqrtLower, sqrtUpper, p.sqrtPrice);
      if liquidity.Overflow? {
        return Rejected(Aborted);
      }
      if liquidity.value == 0 {
        return Rejected(InsufficientLiquidity);
      }
      var actual := LiquidityMath.AmountsForLiquidity(liquidity.value, sqrtLower, sqrtUpper, p.sqrtPrice);
      if actual.Overflow? {
        return Rejected(Aborted);
      }
      var (a, b) := actual.value;
      if a < minA || b < minB {
        return Rejected(SlippageExceeded);
      }
      ghost var c := Call.AddLiquidity(caller, tickLower, tickUpper, desiredA, desiredB, minA, minB);
      assert DoAdd(Stored(), now, c) == Mint(Stored(), now, c, liquidity.value, a, b);
      hide DoAdd;
      var paidA := TransferIfPositive(tokensA, caller, CONTRACT, a);
      var paidB := TransferIfPositive(tokensB, caller, CONTRACT, b);
      if paidA.None? || paidB.None? {
        return Rejected(Aborted);
      }
      if p.currentTick >= tickLower && p.currentTick < tickUpper {
        p := p.(liquidity := p.liquidity + liquidity.value);
        p := p.(activeLiquidity := p.activeLiquidity + liquidity.value);
      }
      p := p.(activeLiquidity := Max(p.activeLiquidity, 0));
      ActivateIs(pool, tickLower, tickUpper, liquidity.value, p);
      var insideA := FeeGrowthInside(p, outside, tickLower, tickUpper, true);
      var insideB := FeeGrowthInside(p, outside, tickLower, tickUpper, false);
      var id := positionCount + 1;
      var position := Position(id, caller, tickLower, tickUpper, liquidity.value, insideA, insideB, 0, 0, now);
      SameInside(pool, p, tickLower, tickUpper);
      var loss := EstimateIlBps(position.tickLower, position.tickUpper, p.sqrtPrice);
      var (reserveA, reserveB) := HedgeReserve(loss, a, b);
      if !Fits(p.liquidity) || !Fits(p.activeLiquidity) || !Fits(a * HEDGE_RATIO_BPS) || !Fits(b * HEDGE_RATIO_BPS)
         || !Fits(p.ilReserveA + reserveA) || !Fits(p.ilReserveB + reserveB) {
        return Rejected(Aborted);
      }
      p := p.(ilReserveA := p.ilReserveA + reserveA);
      p := p.(ilReserveB := p.ilReserveB + reserveB);

      positionCount := id;
      positions := positions[id := position];
      IndexOwnerPosition(caller, id);
      tokensA, tokensB := paidA.value, paidB.value;
      pool := p;
      r := Returned(Added(id, a, b, liquidity.value));
    }

    lemma ActivateIs(before: PoolState, lower: int, upper: int, liquidity: int, after: PoolState)
      requires after == if before.currentTick >= lower && before.currentTick < upper
                        then before.(liquidity := before.liquidity + liquidity,
                                     activeLiquidity := Max(before.activeLiquidity + liquidity, 0))
                        else before.(activeLiquidity := Max(before.activeLiquidity, 0))
      ensures after == Activate(before, lower, upper, liquidity)
    {
    }

    /** Liquidity does not enter the reading of the growth. */
    lemma SameInside(p: PoolState, q: PoolState, lower: int, upper: int)
      requires q.currentTick == p.currentTick
      requires q.feeGrowthA == p.feeGrowthA && q.feeGrowthB == p.feeGrowthB
      ensures FeeGrowthInside(q, outside, lower, upper, true) == FeeGrowthInside(p, outside, lower, upper, true)
      ensures FeeGrowthInside(q, outside, lower, upper, false) == FeeGrowthInside(p, outside, lower, upper, false)
    {
    }

    method IndexOwnerPosition(owner: Address, id: nat)
      modifies this`ownerIndex
      ensures ownerIndex == old(ownerIndex)[owner := Index(old(ownerIndex), owner) + [id]]
    {
      var ids := Index(ownerIndex, owner);
      ids := ids + [id];
      ownerIndex := ownerIndex[owner := ids];
    }

    method DeindexOwnerPosition(owner: Address, id: nat)
      modifies this`ownerIndex
      ensures ownerIndex == old(ownerIndex)[owner := Without(Index(old(ownerIndex), owner), id)]
    {
      var ids := Index(ownerIndex, owner);
      var updated: seq<nat> := [];
      for i := 0 to |ids|
        invariant updated == Without(ids[..i], id)
      {
        assert ids[..i + 1][..i] == ids[..i];
        if ids[i] != id {
          updated := updated + [ids[i]];
        }
      }
      assert ids[..|ids|] == ids;
      ownerIndex := ownerIndex[owner := updated];
    }

    method RemoveLiquidity(caller: Address, positionId: nat, liquidity: int, minA: int, minB: int)
      returns (r: CallResult)
      requires Valid(Stored())
      modifies this
      ensures Follows(DoRemove(old(Stored()), Call.RemoveLiquidity(caller, positionId, liquidity, minA, minB)),
        old(Stored()), Stored(), r)
    {
      hide PriceAt, TickAt, LiquidityMath.AmountsForLiquidity, HedgeRelease, TransferIfPositive, FeeGrowthInside,
        Fees.PositiveHistory, Accrual, AccrualFits, Without, ValidPool, Deactivate;
      if positionId !in positions {
        return Rejected(PositionNotFound);
      }
      var position := positions[positionId];
      if position.owner != caller {
        return Rejected(Unauthorized);
      }
      if liquidity <= 0 || liquidity > position.liquidity {
        return Rejected(InvalidAmount);
      }
      var p := pool;
      var insideA := FeeGrowthInside(p, outside, position.tickLower, position.tickUpper, true);
      var insideB := FeeGrowthInside(p, outside, position.tickLower, position.tickUpper, false);
      var accrued := AccruePositionFees(position, insideA, insideB);
      if accrued.Overflow? {
        return Rejected(Aborted);
      }
      position := accrued.value;
      var out := LiquidityMath.AmountsForLiquidity(
        liquidity, PriceAt(position.tickLower), PriceAt(position.tickUpper), p.sqrtPrice);
      if out.Overflow? {
        return Rejected(Aborted);
      }
      var (outA, outB) := out.value;
      if outA < minA || outB < minB {
        return Rejected(SlippageExceeded);
      }
      if !Fits(p.ilReserveA * liquidity) || !Fits(p.ilReserveB * liquidity) {
        return Rejected(Aborted);
      }
      var hedgeA := HedgeRelease(p.ilReserveA, liquidity, position.liquidity);
      var hedgeB := HedgeRelease(p.ilReserveB, liquidity, position.liquidity);
      p := p.(ilReserveA := Max(p.ilReserveA - hedgeA, 0));
      p := p.(ilReserveB := Max(p.ilReserveB - hedgeB, 0));
      outA, outB := outA + hedgeA, outB + hedgeB;
      if !Fits(outA) || !Fits(outB) {
        return Rejected(Aborted);
      }
      ghost var before := p;
      if p.currentTick >= position.tickLower && p.currentTick < position.tickUpper {
        p := p.(liquidity := Max(p.liquidity - liquidity, 0));
        p := p.(activeLiquidity := Max(p.activeLiquidity - liquidity, 0));
      }
      DeactivateIs(before, position, liquidity, p);
      position := position.(liquidity := position.liquidity - liquidity);
      var paidA := TransferIfPositive(tokensA, CONTRACT, caller, outA);
      var paidB := TransferIfPositive(tokensB, CONTRACT, caller, outB);
      if paidA.None? || paidB.None? {
        return Rejected(Aborted);
      }
      tokensA, tokensB := paidA.value, paidB.value;
      if position.liquidity == 0 {
        positions := positions - {positionId};
        DeindexOwnerPosition(caller, positionId);
      } else {
        positions := positions[positionId := position];
      }
      pool := p;
      r := Returned(Removed(outA, outB, hedgeA, hedgeB));
    }

    lemma DeactivateIs(before: PoolState, p: Position, liquidity: int, after: PoolState)
      requires after == if before.currentTick >= p.tickLower && before.currentTick < p.tickUpper
                        then before.(liquidity := Max(before.liquidity - liquidity, 0),
                                     activeLiquidity := Max(before.activeLiquidity - liquidity, 0))
                        else before
      ensures after == Deactivate(before, p, liquidity)
    {
    }

    /** Credits the position with the growth since its checkpoints and moves the checkpoints. */
    static method AccruePositionFees(position: Position, insideA: int, insideB: int) returns (r: Checked<Position>)
      ensures r == AccruedAt(position, insideA, insideB)
    {
      hide TruncDiv;
      var p := position;
      var perUnitA, perUnitB := insideA - p.insideLastA, insideB - p.insideLastB;
      if perUnitA > 0 {
        if !Fits(p.liquidity * perUnitA) || !Fits(p.owedA + TruncDiv(p.liquidity * perUnitA, Q64)) {
          return Overflow;
        }
        p := p.(owedA := p.owedA + TruncDiv(p.liquidity * perUnitA, Q64));
      }
      if perUnitB > 0 {
        if !Fits(p.liquidity * perUnitB) || !Fits(p.owedB + TruncDiv(p.liquidity * perUnitB, Q64)) {
          return Overflow;
        }
        p := p.(owedB := p.owedB + TruncDiv(p.liquidity * perUnitB, Q64));
      }
      p := p.(insideLastA := insideA);
      p := p.(insideLastB := insideB);
      r := Ok(p);
    }

    method CollectFees(caller: Address, positionId: nat) returns (r: CallResult)
      requires Valid(Stored())
      modifies this
      ensures Follows(DoCollect(old(Stored()), Call.CollectFees(caller, positionId)), old(Stored()), Stored(), r)
    {
      hide TickAt, TransferIfPositive, FeeGrowthInside, Fees.PositiveHistory, Accrual, AccrualFits, ValidPool;
      if positionId !in positions {
        return Rejected(PositionNotFound);
      }
      var position := positions[positionId];
      if position.owner != caller {
        return Rejected(Unauthorized);
      }
      var insideA := FeeGrowthInside(pool, outside, position.tickLower, position.tickUpper, true);
      var insideB := FeeGrowthInside(pool, outside, position.tickLower, position.tickUpper, false);
      var accrued := AccruePositionFees(position, insideA, insideB);
      if accrued.Overflow? {
        return Rejected(Aborted);
      }
      position := accrued.value;
      var owedA, owedB := position.owedA, position.owedB;
      var paidA := TransferIfPositive(tokensA, CONTRACT, caller, owedA);
      var paidB := TransferIfPositive(tokensB, CONTRACT, caller, owedB);
      if paidA.None? || paidB.None? {
        return Rejected(Aborted);
      }
      if owedA > 0 {
        position := position.(owedA := 0);
      }
      if owedB > 0 {
        position := position.(owedB := 0);
      }
      tokensA, tokensB := paidA.value, paidB.value;
      positions := positions[positionId := position];
      r := Returned(Collected(owedA, owedB));
    }

    method Swap(
      caller: Address, tokenIn: Address, tokenOut: Address, amountIn: int, minAmountOut: int, now: nat)
      returns (r: CallResult)
      requires Valid(Stored())
      modifies this
      ensures Follows(
        DoSwapTokens(old(Stored()), tokenA, tokenB, now, caller, tokenIn, tokenOut, amountIn, minAmountOut),
        old(Stored()), Stored(), r)
    {
      hide PriceAt, TickAt, ComputeSwapStep, FeeIncrement, Transfer, Fees.PositiveHistory, ValidPosition,
        MovedPool, MovedOutside;
      if paused {
        return Rejected(Paused);
      }
      if amountIn <= 0 {
        return Rejected(InvalidAmount);
      }
      var (a, b, zeroForOne) :=
        if tokenIn < tokenOut then (tokenIn, tokenOut, true) else (tokenOut, tokenIn, false);
      if (a, b) != (tokenA, tokenB) {
        return Rejected(PoolNotFound);
      }
      var p := pool;
      if p.liquidity == 0 {
        return Rejected(InsufficientLiquidity);
      }
      var recorded := samples[now / Fees.ORACLE_PERIOD_SECS := p.sqrtPrice];
      var targetTick := if zeroForOne then p.currentTick - 1 else p.currentTick + 1;
      targetTick := Min(Max(targetTick, MIN_TICK), MAX_TICK);
      PriceRange(targetTick);
      var targetSqrt := PriceAt(targetTick);
      var computed := ComputeSwapStep(p.sqrtPrice, targetSqrt, p.liquidity, amountIn, p.dynamicFeeBps);
      if computed.Overflow? {
        return Rejected(Aborted);
      }
      var step := computed.value;
      if step.amountOut < minAmountOut {
        return Rejected(SlippageExceeded);
      }
      var growth := AccumulateFeeGrowth(step.feePaid, p.liquidity, if zeroForOne then p.feeGrowthA else p.feeGrowthB);
      if growth.Overflow? {
        return Rejected(Aborted);
      }
      var newTick := SqrtPriceToTick(step.newPrice);
      var crossed := outside;
      if newTick != p.currentTick {
        crossed := CrossTick(p, outside, if zeroForOne then p.currentTick else targetTick);
      }
      p := p.(sqrtPrice := step.newPrice);
      p := p.(currentTick := newTick);
      if zeroForOne {
        p := p.(feeGrowthA := growth.value);
      } else {
        p := p.(feeGrowthB := growth.value);
      }
      p := p.(totalVolume := p.totalVolume + step.amountIn);
      MovedIs(zeroForOne, step, growth.value, p, crossed);
      var paidIn := Transfer(if zeroForOne then tokensA else tokensB, caller, CONTRACT, step.amountIn);
      var paidOut := Transfer(if zeroForOne then tokensB else tokensA, CONTRACT, caller, step.amountOut);
      if !Fits(p.totalVolume) || paidIn.None? || paidOut.None? {
        return Rejected(Aborted);
      }
      samples, outside, pool := recorded, crossed, p;
      if zeroForOne {
        tokensA, tokensB := paidIn.value, paidOut.value;
      } else {
        tokensA, tokensB := paidOut.value, paidIn.value;
      }
      r := Returned(Swapped(step.amountIn, step.amountOut, step.feePaid, step.newPrice, newTick));
    }

    lemma MovedIs(zeroForOne: bool, step: SwapStep, growth: int, after: PoolState, crossed: OutsideFees)
      requires after == pool.(sqrtPrice := step.newPrice, currentTick := TickAt(step.newPrice),
                              feeGrowthA := if zeroForOne then growth else pool.feeGrowthA,
                              feeGrowthB := if zeroForOne then pool.feeGrowthB else growth,
                              totalVolume := pool.totalVolume + step.amountIn)
      requires crossed == if TickAt(step.newPrice) == pool.currentTick then outside
                          else CrossTick(pool, outside, if zeroForOne then pool.currentTick
                                                        else Min(Max(pool.currentTick + 1, MIN_TICK), MAX_TICK))
      ensures after == MovedPool(pool, zeroForOne, step, growth)
      ensures crossed == MovedOutside(pool, outside, zeroForOne, step.newPrice)
    {
      hide TickAt;
    }

    method UpdateDynamicFee(now: nat) returns (r: CallResult)
      requires Valid(Stored())
      modifies this
      ensures Follows(DoUpdateFee(old(Stored()), now), old(Stored()), Stored(), r)
    {
      hide TickAt, Fees.DynamicFee, ValidPosition;
      var fee := Fees.ComputeDynamicFee(samples, now, pool.feeTier);
      if fee.Overflow? {
        return Rejected(Aborted);
      }
      pool := pool.(dynamicFeeBps := fee.value.fee);
      r := Returned(FeeUpdated(fee.value.fee));
    }

    /** Permitted says whether access control lets the caller pause; without it the call aborts. */
    method Pause(permitted: bool) returns (r: CallResult)
      requires Valid(Stored())
      modifies this`paused
      ensures Follows(
        if permitted then Execute(old(Stored()), 0, Call.SetPaused(true)) else Failed(Aborted), old(Stored()), Stored(), r)
    {
      if !permitted {
        return Rejected(Aborted);
      }
      paused := true;
      r := Returned(PauseSet);
    }

    method Unpause(permitted: bool) returns (r: CallResult)
      requires Valid(Stored())
      modifies this`paused
      ensures Follows(
        if permitted then Execute(old(Stored()), 0, Call.SetPaused(false)) else Failed(Aborted), old(Stored()), Stored(), r)
    {
      if !permitted {
        return Rejected(Aborted);
      }
      paused := false;
      r := Returned(PauseSet);
    }

    /** All positions of an owner that are still stored. */
    method GetOwnerPositions(owner: Address) returns (found: seq<Position>)
      ensures found == AmmRuns.OwnerPositions(positions, Index(ownerIndex, owner))
    {
      var ids := Index(ownerIndex, owner);
      found := [];
      for i := 0 to |ids|
        invariant found == AmmRuns.OwnerPositions(positions, ids[..i])
      {
        assert ids[..i + 1][..i] == ids[..i];
        if ids[i] in positions {
          found := found + [positions[ids[i]]];
        }
      }
      assert ids[..|ids|] == ids;
    }
  }

  /** Why a pool is not created, in the order of the checks. */
  function Refusal(permitted: bool, known: bool, feeTier: nat, initialPrice: int): Option<Error> {
    if !permitted then Some(Aborted)
    else if !Fees.IsValidFeeTier(feeTier) then Some(InvalidFeeTier)
    else if initialPrice <= 0 then Some(InvalidAmount)
    else if known then Some(PoolAlreadyExists)
    else None
  }

  /** The pools by their two tokens as given at creation. */
  class Pools {
    var pools: map<(Address, Address), Contract>

    constructor ()
      ensures pools == map[]
    {
      pools := map[];
    }

    /** Permitted says whether access control lets the caller create pools. */
    method CreatePool(
      permitted: bool, tokenA: Address, tokenB: Address, feeTier: nat, initialPrice: int, tokensA: Balances, tokensB: Balances)
      returns (r: Result<Contract, Error>)
      requires Fits(initialPrice)
      modifies this
      ensures match Refusal(permitted, (tokenA, tokenB) in old(pools), feeTier, initialPrice)
        case Some(e) => r == Failure(e) && pools == old(pools)
        case None =>
          && r.Success? && fresh(r.value) && pools == old(pools)[(tokenA, tokenB) := r.value]
          && r.value.tokenA == tokenA && r.value.tokenB == tokenB
          && Some(r.value.Stored()) == Amm.CreatePool(feeTier, initialPrice, tokensA, tokensB)
    {
      if !permitted {
        return Failure(Aborted);
      }
      if !Fees.IsValidFeeTier(feeTier) {
        return Failure(InvalidFeeTier);
      }
      if initialPrice <= 0 {
        return Failure(InvalidAmount);
      }
      if (tokenA, tokenB) in pools {
        return Failure(PoolAlreadyExists);
      }
      var pool := new Contract(tokenA, tokenB, feeTier, initialPrice, tokensA, tokensB);
      pools := pools[(tokenA, tokenB) := pool];
      r := Success(pool);
    }
  }
}
