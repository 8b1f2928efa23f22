/** Runs of the pool that show where its bounds need their conditions: credits that exceed the fees
    charged, and swaps that do not pay for the rise of the price. */
module AmmExamples {
  import opened Common
  import opened FixedPoint
  import opened TickMap
  import opened SwapMath
  import opened IlHedge
  import opened Amm
  import opened FeeLedger
  import opened FeeBound
  import opened AmmRuns
  import AmmEffects
  import LiquidityMath
  import Fees
  import Tokens = Ledger

  // ---------------------------------------------------------------- calls that go through

  /** Far from every overflow. */
  const ROOM: int := 1_000_000_000_000_000_000_000_000_000_000

  predicate Roomy(pool: PoolState) {
    && pool.activeLiquidity == pool.liquidity <= ROOM
    && pool.ilReserveA <= ROOM && pool.ilReserveB <= ROOM && 0 <= pool.totalVolume <= ROOM
  }

  /** An unpaused, roomy pool takes every deposit of token A that buys liquidity, if its owner holds the offer. */
  lemma AddGoesThrough(s: State, now: nat, c: Call, l: int)
    requires Valid(s) && !s.paused && Roomy(s.pool) && c.AddLiquidity? && c.caller != CONTRACT
    requires Supported(c.tickLower) && Supported(c.tickUpper) && c.tickLower < c.tickUpper
    requires 0 < c.desiredA <= ROOM && c.desiredB == c.minA == c.minB == 0
    requires LiquidityMath.LiquidityFromAmounts(c.desiredA, 0, PriceAt(c.tickLower), PriceAt(c.tickUpper),
               s.pool.sqrtPrice) == Ok(l)
    requires 0 < l <= ROOM && Tokens.BalanceOf(s.tokensA, c.caller) >= c.desiredA
    ensures DoAdd(s, now, c).Done?
    ensures var t, id := DoAdd(s, now, c).state, s.positionCount + 1;
      && !t.paused && t.positionCount == id
      && t.positions == s.positions[id := NewPosition(s, now, c, l)]
      && t.pool == Activate(s.pool, c.tickLower, c.tickUpper, l).(ilReserveA := t.pool.ilReserveA,
                                                                  ilReserveB := t.pool.ilReserveB)
      && t.pool.ilReserveA <= s.pool.ilReserveA + c.desiredA && t.pool.ilReserveB <= s.pool.ilReserveB
      && Tokens.BalanceOf(t.tokensA, c.caller) >= Tokens.BalanceOf(s.tokensA, c.caller) - c.desiredA
      && t.tokensB == s.tokensB
    ensures var t, taken := DoAdd(s, now, c).state,
                            LiquidityMath.AmountsForLiquidity(l, PriceAt(c.tickLower), PriceAt(c.tickUpper), s.pool.sqrtPrice);
      && taken.Ok? && taken.value.0 >= 0
      && Tokens.BalanceOf(t.tokensA, CONTRACT) == Tokens.BalanceOf(s.tokensA, CONTRACT) + taken.value.0
  {
    hide PriceAt, TickAt, LiquidityMath.AmountsForLiquidity, LiquidityMath.LiquidityFromAmounts, EstimateIlBps,
      HedgeReserve, FeeGrowthInside, Fees.PositiveHistory, ValidPosition, NewPosition;
    var lower, upper := PriceAt(c.tickLower), PriceAt(c.tickUpper);
    PriceRange(c.tickLower);
    PriceRange(c.tickUpper);
    LiquidityMath.DepositWithinOffer(c.desiredA, 0, lower, upper, s.pool.sqrtPrice);
    var (a, b) := LiquidityMath.AmountsForLiquidity(l, lower, upper, s.pool.sqrtPrice).value;
    ReserveNonNegative(EstimateIlBps(c.tickLower, c.tickUpper, s.pool.sqrtPrice), a, b);
  }

  /** A swap whose step fits goes through when both sides hold what they pay. */
  lemma SwapGoesThrough(s: State, now: nat, c: Call, step: SwapStep)
    requires Valid(s) && !s.paused && Roomy(s.pool) && c.Swap? && c.caller != CONTRACT
    requires 0 < c.amountIn && c.minAmountOut == 0 && s.pool.liquidity > 0
    requires ComputeSwapStep(s.pool.sqrtPrice, TargetPrice(s.pool, c.zeroForOne), s.pool.liquidity, c.amountIn,
               s.pool.dynamicFeeBps) == Ok(step)
    requires step.amountIn <= ROOM && Fits(step.feePaid * Q64)
    requires Fits(GrowthGlobal(s.pool, c.zeroForOne) + FeeIncrement(step.feePaid, s.pool.liquidity))
    requires Tokens.BalanceOf(if c.zeroForOne then s.tokensA else s.tokensB, c.caller) >= step.amountIn
    requires Tokens.BalanceOf(if c.zeroForOne then s.tokensB else s.tokensA, CONTRACT) >= step.amountOut
    ensures DoSwap(s, now, c).Done?
    ensures var t, r := DoSwap(s, now, c).state, DoSwap(s, now, c).receipt;
      && r == Swapped(step.amountIn, step.amountOut, step.feePaid, step.newPrice, TickAt(step.newPrice))
      && t.positions == s.positions && t.positionCount == s.positionCount && !t.paused
      && t.pool.sqrtPrice == step.newPrice && t.pool.currentTick == TickAt(step.newPrice)
      && t.pool == s.pool.(sqrtPrice := t.pool.sqrtPrice, currentTick := t.pool.currentTick,
                           feeGrowthA := t.pool.feeGrowthA, feeGrowthB := t.pool.feeGrowthB,
                           totalVolume := s.pool.totalVolume + step.amountIn)
      && GrowthGlobal(t.pool, !c.zeroForOne) == GrowthGlobal(s.pool, !c.zeroForOne)
      && Tokens.BalanceOf(if c.zeroForOne then t.tokensA else t.tokensB, CONTRACT)
         == Tokens.BalanceOf(if c.zeroForOne then s.tokensA else s.tokensB, CONTRACT) + step.amountIn
      && Tokens.BalanceOf(if c.zeroForOne then t.tokensA else t.tokensB, c.caller)
         == Tokens.BalanceOf(if c.zeroForOne then s.tokensA else s.tokensB, c.caller) - step.amountIn
      && Tokens.BalanceOf(if c.zeroForOne then t.tokensB else t.tokensA, c.caller)
         == Tokens.BalanceOf(if c.zeroForOne then s.tokensB else s.tokensA, c.caller) + step.amountOut
      && Tokens.BalanceOf(if c.zeroForOne then t.tokensB else t.tokensA, CONTRACT)
         == Tokens.BalanceOf(if c.zeroForOne then s.tokensB else s.tokensA, CONTRACT) - step.amountOut
  {
    hide ComputeSwapStep, TargetPrice, TickAt, FeeIncrement, MovedOutside, Fees.PositiveHistory, ValidPosition;
    SwapPrice(s, c);
  }

  /** A collection goes through when the accrual fits and the contract holds what it pays. */
  lemma CollectGoesThrough(s: State, c: Call)
    requires Valid(s) && c.CollectFees? && c.caller != CONTRACT && c.positionId in s.positions
    requires var p := s.positions[c.positionId];
      && p.owner == c.caller && p.owedA == p.owedB == 0
      && InsideNow(s, p, true) == p.insideLastA && InsideNow(s, p, false) >= p.insideLastB
      && Fits(p.liquidity * (InsideNow(s, p, false) - p.insideLastB))
      && Fits(Accrual(p.liquidity, InsideNow(s, p, false), p.insideLastB))
      && Tokens.BalanceOf(s.tokensB, CONTRACT) >= Accrual(p.liquidity, InsideNow(s, p, false), p.insideLastB)
    ensures DoCollect(s, c).Done?
  {
    hide InsideNow, TruncDiv, Valid;
  }

  // ---------------------------------------------------------------- a pool at tick 0

  /** Price of one tick next to tick 0. */
  const GAP: int := 934_197_202_277_456

  lemma PricesNearZero()
    ensures PriceAt(0) == Q64 && PriceAt(1) == Q64 + GAP && PriceAt(2) == Q64 + 2 * GAP
    ensures TickAt(Q64) == 0 && TickAt(Q64 + GAP) == 1
  {
    hide PriceAt, TickAt;
    PriceIsExact(0, 16);
    PriceIsExact(1, 16);
    PriceIsExact(2, 16);
    GapOfFirst();
    TickOfPriceOfTick(0);
    TickOfPriceOfTick(1);
  }

  lemma GapOfFirst()
    ensures Gap(16) == GAP && Table()[16].1 == Q64
  {
  }

  // ---------------------------------------------------------------- credits beyond the fees

  /** A position of hardly any liquidity, a second one above it, a swap that crosses into the second
      one's range, and the collection of its fees. */
  function Crossing(n: nat): seq<TimedCall> {
    [At(0, AddLiquidity(1, 0, 1, 1, 0, 0, 0)),
     At(0, AddLiquidity(1, 1, 2, n, 0, 0, 0)),
     At(0, Swap(1, false, 10_000, 0)),
     At(0, CollectFees(1, 2))]
  }

  const SLIVER: int := 19_746

  const GROWTH: int := 28_026_046_906_274_007

  /** What the two deposits buy. */
  lemma LiquidityAtZero(n: nat) returns (l: int)
    requires 1 <= n <= 1_000_000_000_000
    ensures LiquidityMath.LiquidityFromAmounts(1, 0, Q64, Q64 + GAP, Q64) == Ok(SLIVER)
    ensures LiquidityMath.LiquidityFromAmounts(n, 0, Q64 + GAP, Q64 + 2 * GAP, Q64) == Ok(l)
    ensures (SLIVER + 1) * n <= l <= (SLIVER + 54) * n
  {
    hide SatMul, TruncDiv;
    var p, u := Q64 + GAP, Q64 + 2 * GAP;
    assert SatMul(1, p) == p;
    DivUnique(p, Q64, 1);
    assert SatMul(1, Q64) == Q64;
    DivUnique(Q64, GAP, SLIVER);
    assert SatMul(n, u) == n * u;
    var step := n * u / Q64;
    DivAtLeast(n * u, Q64, n);
    DivBounds(n * u, Q64);
    assert 10_000 * step <= 10_002 * n;
    assert SatMul(step, p) == step * p;
    l := step * p / GAP;
    DivAtLeast(step * p, GAP, (SLIVER + 1) * n);
    DivBounds(step * p, GAP);
  }

  lemma StepAcross()
    ensures ComputeSwapStep(Q64, Q64 + GAP, SLIVER, 10_000, 30) == Ok(SwapStep(0, 0, 30, Q64 + GAP))
    ensures FeeIncrement(30, SLIVER) == GROWTH
  {
    hide SatMul, TruncDiv;
    assert SatMul(SLIVER, GAP) == SLIVER * GAP;
    DivUnique(SLIVER * GAP, Q64, 0);
    assert SatMul(0, Q64) == 0;
  }

  /** Two deposits into a fresh pool at tick 0, and what the second one may claim later. */
  predicate TwoDeposits(s: State, l: int, contractB: int) {
    && Valid(s) && !s.paused && Roomy(s.pool)
    && s.pool.sqrtPrice == Q64 && s.pool.dynamicFeeBps == 30 && s.pool.liquidity == SLIVER
    && s.pool.feeGrowthB == 0
    && Tokens.BalanceOf(s.tokensA, CONTRACT) >= 0
    && Tokens.BalanceOf(s.tokensB, CONTRACT) >= contractB && Tokens.BalanceOf(s.tokensB, 1) >= 0
    && 2 in s.positions && Waiting(s, s.positions[2], l)
  }

  /** A position of caller 1 in the range from tick 1 to tick 2 with nothing owed and nothing accrued. */
  predicate Waiting(s: State, p: Position, l: int) {
    && p.owner == 1 && p.tickLower == 1 && p.tickUpper == 2 && p.liquidity == l && p.owedA == p.owedB == 0
    && p.insideLastA == InsideNow(s, p, true) && p.insideLastB == InsideNow(s, p, false)
  }

  lemma DepositsGoThrough(n: nat, l: int, tokensA: Tokens.Balances, tokensB: Tokens.Balances)
    requires 1 <= n <= 1_000_000_000_000
    requires Tokens.BalanceOf(tokensA, 1) >= n + 1 && Tokens.BalanceOf(tokensA, CONTRACT) >= 0
    requires Tokens.BalanceOf(tokensB, 1) >= 0
    requires LiquidityMath.LiquidityFromAmounts(1, 0, Q64, Q64 + GAP, Q64) == Ok(SLIVER)
    requires LiquidityMath.LiquidityFromAmounts(n, 0, Q64 + GAP, Q64 + 2 * GAP, Q64) == Ok(l)
    requires 0 < l <= ROOM
    ensures CreatePool(30, Q64, tokensA, tokensB).Some?
    ensures var s := CreatePool(30, Q64, tokensA, tokensB).value;
      var s1 := Step(s, 0, Crossing(n)[0].call);
      TwoDeposits(Step(s1, 0, Crossing(n)[1].call), l, Tokens.BalanceOf(tokensB, CONTRACT))
  {
    hide PriceAt, TickAt, LiquidityMath.LiquidityFromAmounts, FeeGrowthInside, Fees.PositiveHistory, DoAdd, ValidPosition,
      NewPosition;
    PricesNearZero();
    var s := CreatePool(30, Q64, tokensA, tokensB).value;
    var c, d := Crossing(n)[0].call, Crossing(n)[1].call;
    AddGoesThrough(s, 0, c, SLIVER);
    var s1 := Step(s, 0, c);
    AddGoesThrough(s1, 0, d, l);
    var s2 := Step(s1, 0, d);
    OtherCallsKeepFees(s1, 0, d);
    NewIsWaiting(s1, s2, d, l);
  }

  lemma NewIsWaiting(s: State, t: State, c: Call, l: int)
    requires c.AddLiquidity? && c.caller == 1 && c.tickLower == 1 && c.tickUpper == 2
    requires t.pool.currentTick == s.pool.currentTick && t.outside == s.outside
    requires t.pool.feeGrowthA == s.pool.feeGrowthA && t.pool.feeGrowthB == s.pool.feeGrowthB
    ensures Waiting(t, NewPosition(s, 0, c, l), l)
  {
  }

  lemma SwapAcross(s: State, l: int, contractB: int)
    requires TwoDeposits(s, l, contractB)
    ensures var e := Crossing(1)[2];
      var t, p := Step(s, e.now, e.call), s.positions[2];
      && FeeOf(s, e, false) == 30
      && 2 in t.positions && t.positions[2] == p
      && InsideNow(t, p, true) == p.insideLastA && InsideNow(t, p, false) == p.insideLastB + GROWTH
      && Tokens.BalanceOf(t.tokensB, CONTRACT) >= contractB
  {
    hide PriceAt, TickAt, Valid, ComputeSwapStep, FeeGrowthInside, FeeIncrement, DoSwap;
    PricesNearZero();
    StepAcross();
    assert s.pool.currentTick == 0 by {
      TickOfPool(s);
    }
    var e, p := Crossing(1)[2], s.positions[2];
    SwapGoesThrough(s, e.now, e.call, SwapStep(0, 0, 30, Q64 + GAP));
    StepInside(s, e, 1, 2, true);
    StepInside(s, e, 1, 2, false);
  }

  lemma TickOfPool(s: State)
    requires Valid(s)
    ensures s.pool.currentTick == TickAt(s.pool.sqrtPrice)
  {
  }

  lemma CollectionPays(s: State, n: nat, l: int)
    requires Valid(s) && 2 in s.positions && 1 <= n <= 1_000_000_000_000
    requires var p := s.positions[2];
      && p.owner == 1 && p.liquidity == l && p.owedA == p.owedB == 0
      && InsideNow(s, p, true) == p.insideLastA && InsideNow(s, p, false) == p.insideLastB + GROWTH
    requires (SLIVER + 1) * n <= l <= (SLIVER + 54) * n && Tokens.BalanceOf(s.tokensB, CONTRACT) >= 31 * n
    ensures CreditOf(s, Crossing(n)[3], false) >= 30 * n
  {
    hide InsideNow, Valid, DoCollect, Tokens.BalanceOf;
    var e := Crossing(n)[3];
    DivBounds(l * GROWTH, Q64);
    DivAtLeast(l * GROWTH, Q64, 30 * n);
    CollectGoesThrough(s, e.call);
  }

  /** No multiple of the fees charged bounds the fees credited: for every n, up to sizes at which
      nothing overflows, a run of four calls from creation credits n times the fee it charges. The
      surplus term of the bound cannot be left out. */
  lemma CreditsExceedCharges(n: nat, tokensA: Tokens.Balances, tokensB: Tokens.Balances)
    requires 1 <= n <= 1_000_000_000_000
    requires Tokens.BalanceOf(tokensA, 1) >= n + 1 && Tokens.BalanceOf(tokensA, CONTRACT) >= 0
    requires Tokens.BalanceOf(tokensB, 1) >= 0 && Tokens.BalanceOf(tokensB, CONTRACT) >= 31 * n
    ensures CreatePool(30, Q64, tokensA, tokensB).Some?
    ensures var s := CreatePool(30, Q64, tokensA, tokensB).value;
      Charged(s, Crossing(n), false) == 30 && Credited(s, Crossing(n), false) >= 30 * n
  {
    hide Valid, CreatePool, Execute, Step, TwoDeposits, InsideNow, Run, Charged, Credited;
    var l := LiquidityAtZero(n);
    DepositsGoThrough(n, l, tokensA, tokensB);
    var s, c := CreatePool(30, Q64, tokensA, tokensB).value, Crossing(n);
    assert [] + [c[0]] == [c[0]] && [c[0]] + [c[1]] == [c[0], c[1]];
    assert [c[0], c[1]] + [c[2]] == [c[0], c[1], c[2]] && [c[0], c[1], c[2]] + [c[3]] == c;
    OneMore(s, [], c[0]);
    OneMore(s, [c[0]], c[1]);
    OneMore(s, [c[0], c[1]], c[2]);
    OneMore(s, [c[0], c[1], c[2]], c[3]);
    NoCalls(s);
    var s2 := Run(s, [c[0], c[1]]);
    DepositIsWaiting(s2, l, Tokens.BalanceOf(tokensB, CONTRACT));
    SwapAcross(s2, l, Tokens.BalanceOf(tokensB, CONTRACT));
    CollectionPays(Run(s, [c[0], c[1], c[2]]), n, l);
  }

  /** A run, and the accounts of a run, with one more call. */
  lemma OneMore(s: State, calls: seq<TimedCall>, e: TimedCall)
    requires Valid(s)
    ensures Run(s, calls + [e]) == Step(Run(s, calls), e.now, e.call)
    ensures Charged(s, calls + [e], false) == Charged(s, calls, false) + FeeOf(Run(s, calls), e, false)
    ensures Credited(s, calls + [e], false) == Credited(s, calls, false) + CreditOf(Run(s, calls), e, false)
  {
    hide Valid, Step, FeeOf, CreditOf;
    assert (calls + [e])[..|calls|] == calls;
  }

  lemma NoCalls(s: State)
    requires Valid(s)
    ensures Run(s, []) == s && Charged(s, [], false) == Credited(s, [], false) == 0
  {
  }

  lemma DepositIsWaiting(s: State, l: int, contractB: int)
    requires TwoDeposits(s, l, contractB)
    ensures 2 in s.positions && Waiting(s, s.positions[2], l)
  {
  }

  // ---------------------------------------------------------------- a clamped swap

  const TEN_QUINTILLION: int := 10_000_000_000_000_000_000

  /** The most that one deposit can buy between tick 0 and tick 1. */
  const DEEP: int := 182_125_554_482_165_323_236_364

  function DeepDeposit(): TimedCall {
    At(0, AddLiquidity(1, 0, 1, TEN_QUINTILLION, 0, 0, 0))
  }

  function DeepSwap(): TimedCall {
    At(0, Swap(1, false, TEN_QUINTILLION, 0))
  }

  lemma DeepLiquidity()
    ensures LiquidityMath.LiquidityFromAmounts(TEN_QUINTILLION, 0, Q64, Q64 + GAP, Q64) == Ok(DEEP)
  {
    hide SatMul, TruncDiv;
    assert SatMul(TEN_QUINTILLION, Q64 + GAP) == I128_MAX;
    DivUnique(I128_MAX, Q64, 0x7fff_ffff_ffff_ffff);
    assert SatMul(0x7fff_ffff_ffff_ffff, Q64) == 0x7fff_ffff_ffff_ffff * Q64;
    DivUnique(0x7fff_ffff_ffff_ffff * Q64, GAP, DEEP);
  }

  /** What one such deposit takes, and one clamped swap pays out. */
  const DEEP_A: int := 9_222_904_961_907_681_775

  lemma DeepAmounts()
    ensures LiquidityMath.AmountsForLiquidity(DEEP, Q64, Q64 + GAP, Q64) == Ok((DEEP_A, 0))
  {
    hide SatMul, TruncDiv;
    assert SatMul(DEEP, GAP) == DEEP * GAP;
    DivUnique(DEEP * GAP, Q64 + GAP, DEEP_A);
    assert SatMul(DEEP_A, Q64) == DEEP_A * Q64;
    DivUnique(DEEP_A * Q64, Q64, DEEP_A);
  }

  lemma DeepStep()
    ensures ComputeSwapStep(Q64, Q64 + GAP, 2 * DEEP, TEN_QUINTILLION, 5)
         == Ok(SwapStep(0x7fff_ffff_ffff_ffff, DEEP_A, 5_000_000_000_000_000, Q64 + GAP))
    ensures FeeIncrement(5_000_000_000_000_000, 2 * DEEP) == 253_214_659_059
  {
    hide SatMul, TruncDiv;
    var most := 0x7fff_ffff_ffff_ffff;
    assert SatMul(2 * DEEP, GAP) == I128_MAX;
    DivUnique(I128_MAX, Q64, most);
    assert SatMul(most, Q64) == most * Q64;
    DivUnique(most * Q64, Q64 + GAP, DEEP_A);
    DivUnique(5_000_000_000_000_000 * Q64, 2 * DEEP, 253_214_659_059);
  }

  predicate Deep(s: State) {
    && Valid(s) && !s.paused && Roomy(s.pool)
    && s.pool.sqrtPrice == Q64 && s.pool.dynamicFeeBps == 5 && s.pool.liquidity == 2 * DEEP && s.pool.feeGrowthB == 0
    && Tokens.BalanceOf(s.tokensA, CONTRACT) >= DEEP_A
    && Tokens.BalanceOf(s.tokensB, 1) >= TEN_QUINTILLION
  }

  lemma DeepDepositsGoThrough(tokensA: Tokens.Balances, tokensB: Tokens.Balances)
    requires Tokens.BalanceOf(tokensA, 1) >= 2 * TEN_QUINTILLION && Tokens.BalanceOf(tokensB, 1) >= TEN_QUINTILLION
    requires Tokens.BalanceOf(tokensA, CONTRACT) >= 0
    ensures CreatePool(5, Q64, tokensA, tokensB).Some?
    ensures var s := CreatePool(5, Q64, tokensA, tokensB).value;
      Deep(Step(Step(s, 0, DeepDeposit().call), 0, DeepDeposit().call))
  {
    hide PriceAt, TickAt, LiquidityMath.LiquidityFromAmounts, LiquidityMath.AmountsForLiquidity, FeeGrowthInside,
      Fees.PositiveHistory, DoAdd, ValidPosition, NewPosition;
    PricesNearZero();
    DeepLiquidity();
    DeepAmounts();
    var s := CreatePool(5, Q64, tokensA, tokensB).value;
    var c := DeepDeposit().call;
    AddGoesThrough(s, 0, c, DEEP);
    AddGoesThrough(Step(s, 0, c), 0, c, DEEP);
  }

  /** The bound on token B fails in a reachable pool: after two deposits the step is clamped, the swap
      goes through, and the token B it brings does not pay for the rise of the price. */
  lemma ClampedSwapFails(tokensA: Tokens.Balances, tokensB: Tokens.Balances)
    requires Tokens.BalanceOf(tokensA, 1) >= 2 * TEN_QUINTILLION && Tokens.BalanceOf(tokensB, 1) >= TEN_QUINTILLION
    requires Tokens.BalanceOf(tokensA, CONTRACT) >= 0
    ensures CreatePool(5, Q64, tokensA, tokensB).Some?
    ensures var s := CreatePool(5, Q64, tokensA, tokensB).value;
      var m := Run(s, [DeepDeposit(), DeepDeposit()]);
      && Execute(m, 0, DeepSwap().call).Done?
      && Clamped(m.pool.sqrtPrice, TargetPrice(m.pool, false), m.pool.liquidity, AfterFee(m.pool, DeepSwap().call))
      && !KeepsUp(m, DeepSwap())
  {
    hide Valid, CreatePool, Execute, Step, Run, Charged, Credited, Deep, KeepsUp;
    DeepDepositsGoThrough(tokensA, tokensB);
    var s, d := CreatePool(5, Q64, tokensA, tokensB).value, DeepDeposit();
    assert [] + [d] == [d] && [d] + [d] == [d, d];
    OneMore(s, [], d);
    OneMore(s, [d], d);
    NoCalls(s);
    DeepSwapFails(Run(s, [d, d]));
  }

  lemma DeepSwapFails(s: State)
    requires Deep(s)
    ensures Execute(s, 0, DeepSwap().call).Done?
    ensures Clamped(s.pool.sqrtPrice, TargetPrice(s.pool, false), s.pool.liquidity, AfterFee(s.pool, DeepSwap().call))
    ensures !KeepsUp(s, DeepSwap())
  {
    hide PriceAt, TickAt, Valid, ComputeSwapStep, FeeIncrement, DoSwap, KeepsUp;
    PricesNearZero();
    DeepStep();
    assert s.pool.currentTick == 0 by {
      TickOfPool(s);
    }
    SwapGoesThrough(s, 0, DeepSwap().call,
      SwapStep(0x7fff_ffff_ffff_ffff, DEEP_A, 5_000_000_000_000_000, Q64 + GAP));
    SwapPotential(s, DeepSwap());
  }

  // ---------------------------------------------------------------- a sale below the table

  const HALF_MIN: int := 6_123_667_489_442_219_008

  /** Price after the purchase, and after the sale that follows it. */
  const BOUGHT: int := 7_056_946_325_342_888_226
  const SOLD: int := 7_150_274_208_932_955_147

  const SHALLOW: int := 1_975_564

  function ShallowDeposit(): TimedCall {
    At(0, AddLiquidity(1, MIN_TICK, 0, 1_000_000, 0, 0, 0))
  }

  function Purchase(): TimedCall {
    At(0, Swap(1, false, 100_000, 0))
  }

  function Sale(): TimedCall {
    At(0, Swap(1, true, 10_000, 0))
  }

  lemma BelowTable(price: int)
    requires 0 < price < MIN_PRICE
    ensures TickAt(price) == MIN_TICK
  {
    hide Table, PriceAt, ScanFrom;
    ScanFinds(price, 0);
  }

  lemma LowPrices()
    ensures PriceAt(MIN_TICK) == MIN_PRICE && PriceAt(0) == Q64
    ensures PriceAt(MIN_TICK + 1) == MIN_PRICE + 620_240_950_213_812
  {
    hide PriceAt;
    PriceIsExact(0, 16);
    PriceIsExact(MIN_TICK, 0);
    PriceIsExact(MIN_TICK + 1, 0);
    GapOfLowest();
    GapOfFirst();
  }

  lemma GapOfLowest()
    ensures Gap(0) == 620_240_950_213_812 && Table()[0].1 == MIN_PRICE
  {
  }

  lemma ShallowLiquidity()
    ensures LiquidityMath.LiquidityFromAmounts(1_000_000, 0, MIN_PRICE, Q64, HALF_MIN) == Ok(SHALLOW)
    ensures LiquidityMath.AmountsForLiquidity(SHALLOW, MIN_PRICE, Q64, HALF_MIN) == Ok((999_999, 0))
  {
    hide SatMul, TruncDiv;
    var d := Q64 - MIN_PRICE;
    assert SatMul(1_000_000, Q64) == 1_000_000 * Q64;
    DivUnique(1_000_000 * Q64, Q64, 1_000_000);
    assert SatMul(1_000_000, MIN_PRICE) == 1_000_000 * MIN_PRICE;
    DivUnique(1_000_000 * MIN_PRICE, d, SHALLOW);
    assert SatMul(SHALLOW, d) == SHALLOW * d;
    DivUnique(SHALLOW * d, Q64, 663_929);
    assert SatMul(663_929, Q64) == 663_929 * Q64;
    DivUnique(663_929 * Q64, MIN_PRICE, 999_999);
  }

  lemma PurchaseStep()
    ensures ComputeSwapStep(HALF_MIN, MIN_PRICE + 620_240_950_213_812, SHALLOW, 100_000, 5)
         == Ok(SwapStep(99_950, 787_033, 50, BOUGHT))
    ensures FeeIncrement(50, SHALLOW) == 466_872_854_377_523
  {
    hide SatMul, TruncDiv;
    var way, rise := MIN_PRICE + 620_240_950_213_812 - HALF_MIN, BOUGHT - HALF_MIN;
    assert SatMul(SHALLOW, way) == SHALLOW * way;
    DivUnique(SHALLOW * way, Q64, 655_883);
    assert SatMul(99_950, Q64) == 99_950 * Q64;
    DivUnique(99_950 * Q64, SHALLOW, rise);
    assert SatMul(SHALLOW, rise) == SHALLOW * rise;
    DivUnique(SHALLOW * rise, HALF_MIN, 301_086);
    assert SatMul(301_086, Q64) == 301_086 * Q64;
    DivUnique(301_086 * Q64, BOUGHT, 787_033);
    DivUnique(50 * Q64, SHALLOW, 466_872_854_377_523);
  }

  lemma SaleStep()
    ensures ComputeSwapStep(BOUGHT, MIN_PRICE, SHALLOW, 10_000, 5) == Ok(SwapStep(9_995, 67_401, 5, SOLD))
    ensures FeeIncrement(5, SHALLOW) == 46_687_285_437_752
  {
    hide SatMul, TruncDiv;
    var way, rise := MIN_PRICE - BOUGHT, SOLD - BOUGHT;
    assert SatMul(SHALLOW, way) == SHALLOW * way;
    DivUnique(SHALLOW * way, Q64, 555_867);
    assert SatMul(9_995, Q64) == 9_995 * Q64;
    DivUnique(9_995 * Q64, SHALLOW, rise);
    assert SatMul(SHALLOW, rise) == SHALLOW * rise;
    DivUnique(SHALLOW * rise, BOUGHT, 26_126);
    assert SatMul(26_126, Q64) == 26_126 * Q64;
    DivUnique(26_126 * Q64, SOLD, 67_401);
    DivUnique(5 * Q64, SHALLOW, 46_687_285_437_752);
  }

  /** A pool below the table with the shallow deposit in it. */
  predicate Shallow(s: State, price: int, contractA: int, contractB: int) {
    && Valid(s) && !s.paused && Roomy(s.pool)
    && s.pool.sqrtPrice == price && s.pool.dynamicFeeBps == 5 && s.pool.liquidity == SHALLOW
    && s.pool.feeGrowthA == 0 && 0 <= s.pool.feeGrowthB <= ROOM
    && Tokens.BalanceOf(s.tokensA, CONTRACT) >= contractA && Tokens.BalanceOf(s.tokensB, CONTRACT) >= contractB
    && Tokens.BalanceOf(s.tokensA, 1) >= 10_000
  }

  lemma ShallowDepositGoesThrough(tokensA: Tokens.Balances, tokensB: Tokens.Balances)
    requires Tokens.BalanceOf(tokensA, 1) >= 1_010_000 && Tokens.BalanceOf(tokensB, 1) >= 100_000
    requires Tokens.BalanceOf(tokensA, CONTRACT) >= 0 && Tokens.BalanceOf(tokensB, CONTRACT) >= 0
    ensures CreatePool(5, HALF_MIN, tokensA, tokensB).Some?
    ensures var t := Step(CreatePool(5, HALF_MIN, tokensA, tokensB).value, 0, ShallowDeposit().call);
      && Shallow(t, HALF_MIN, 999_999, 0) && t.tokensB == tokensB
      && t.pool.feeGrowthB == t.pool.totalVolume == 0
  {
    hide PriceAt, TickAt, LiquidityMath.LiquidityFromAmounts, LiquidityMath.AmountsForLiquidity, FeeGrowthInside,
      Fees.PositiveHistory, DoAdd, ValidPosition, NewPosition;
    LowPrices();
    ShallowLiquidity();
    BelowTable(HALF_MIN);
    AddGoesThrough(CreatePool(5, HALF_MIN, tokensA, tokensB).value, 0, ShallowDeposit().call, SHALLOW);
  }

  lemma PurchaseGoesThrough(s: State)
    requires Shallow(s, HALF_MIN, 999_999, 0) && s.pool.feeGrowthB == 0 && Tokens.BalanceOf(s.tokensB, 1) >= 100_000
    requires s.pool.totalVolume == 0
    ensures Shallow(Step(s, 0, Purchase().call), BOUGHT, 0, 99_950)
  {
    hide PriceAt, TickAt, Valid, ComputeSwapStep, FeeIncrement, DoSwap;
    LowPrices();
    PurchaseStep();
    BelowTable(HALF_MIN);
    assert s.pool.currentTick == MIN_TICK by {
      TickOfPool(s);
    }
    SwapGoesThrough(s, 0, Purchase().call, SwapStep(99_950, 787_033, 50, BOUGHT));
    SwapGrowth(s, 0, Purchase().call, false);
  }

  lemma SaleFails(s: State)
    requires Shallow(s, BOUGHT, 0, 99_950)
    ensures Execute(s, 0, Sale().call).Done?
    ensures s.pool.sqrtPrice < MIN_PRICE && Step(s, 0, Sale().call).pool.sqrtPrice > s.pool.sqrtPrice
    ensures SwapNetB(s, Sale()) == -67_401
    ensures !KeepsUp(s, Sale())
  {
    hide PriceAt, TickAt, Valid, ComputeSwapStep, FeeIncrement, DoSwap, KeepsUp, Slight;
    LowPrices();
    SaleStep();
    BelowTable(BOUGHT);
    assert s.pool.currentTick == MIN_TICK by {
      TickOfPool(s);
    }
    SwapGoesThrough(s, 0, Sale().call, SwapStep(9_995, 67_401, 5, SOLD));
    SaleBelowTable(s, Sale());
  }

  /** A sale below the table fails in a reachable pool: after a deposit and a purchase, selling token A
      raises the price, and 9,995 units sold are paid with 67,401 units of token B. */
  lemma SaleBelowTableFails(tokensA: Tokens.Balances, tokensB: Tokens.Balances)
    requires Tokens.BalanceOf(tokensA, 1) >= 1_010_000 && Tokens.BalanceOf(tokensB, 1) >= 100_000
    requires Tokens.BalanceOf(tokensA, CONTRACT) >= 0 && Tokens.BalanceOf(tokensB, CONTRACT) >= 0
    ensures CreatePool(5, HALF_MIN, tokensA, tokensB).Some?
    ensures var m := Run(CreatePool(5, HALF_MIN, tokensA, tokensB).value, [ShallowDeposit(), Purchase()]);
      && Execute(m, 0, Sale().call).Done? && m.pool.sqrtPrice < MIN_PRICE
      && Step(m, 0, Sale().call).pool.sqrtPrice > m.pool.sqrtPrice
      && SwapNetB(m, Sale()) == -67_401
      && !KeepsUp(m, Sale())
  {
    hide Valid, CreatePool, Execute, Step, Run, Charged, Credited, KeepsUp, SwapNetB, Shallow, Tokens.BalanceOf, TickAt;
    ShallowDepositGoesThrough(tokensA, tokensB);
    var s, d, b := CreatePool(5, HALF_MIN, tokensA, tokensB).value, ShallowDeposit(), Purchase();
    assert [] + [d] == [d] && [d] + [b] == [d, b];
    OneMore(s, [], d);
    OneMore(s, [d], b);
    NoCalls(s);
    PurchaseGoesThrough(Step(s, 0, d.call));
    SaleFails(Run(s, [d, b]));
  }
}
