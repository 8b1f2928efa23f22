/** Fees credited to positions against fees charged to swappers, over whole runs. */
module FeeBound {
  import opened Common
  import opened FixedPoint
  import opened TickMap
  import opened SwapMath
  import opened Amm
  import opened FeeLedger
  import opened IlHedge
  import LiquidityMath
  import Fees
  import Tokens = Ledger

  // ---------------------------------------------------------------- sums over positions

  /** Sum of the values at keys 1 to n. */
  function SumTo(values: map<nat, int>, n: nat): int {
    if n == 0 then 0 else SumTo(values, n - 1) + ValueAt(values, n)
  }

  function ValueAt(values: map<nat, int>, k: nat): int {
    if k in values then values[k] else 0
  }

  lemma {:induction false} SumChangesAt(u: map<nat, int>, v: map<nat, int>, k: nat, n: nat)
    requires 0 < k <= n
    requires forall i :: i != k ==> ValueAt(u, i) == ValueAt(v, i)
    ensures SumTo(v, n) == SumTo(u, n) + ValueAt(v, k) - ValueAt(u, k)
  {
    if k < n {
      SumChangesAt(u, v, k, n - 1);
    } else {
      SumSame(u, v, n - 1);
    }
  }

  lemma {:induction false} SumSame(u: map<nat, int>, v: map<nat, int>, n: nat)
    requires forall i :: 0 < i <= n ==> ValueAt(u, i) == ValueAt(v, i)
    ensures SumTo(v, n) == SumTo(u, n)
  {
    if n > 0 {
      SumSame(u, v, n - 1);
    }
  }

  lemma {:induction false} SumShifts(u: map<nat, int>, v: map<nat, int>, w: map<nat, int>, factor: int, n: nat)
    requires forall i :: 0 < i <= n ==> ValueAt(v, i) == ValueAt(u, i) + factor * ValueAt(w, i)
    ensures SumTo(v, n) == SumTo(u, n) + factor * SumTo(w, n)
  {
    if n > 0 {
      SumShifts(u, v, w, factor, n - 1);
      assert factor * (SumTo(w, n - 1) + ValueAt(w, n)) == factor * SumTo(w, n - 1) + factor * ValueAt(w, n);
    }
  }

  lemma {:induction false} SumAtLeast(values: map<nat, int>, k: nat, n: nat)
    requires forall i :: i in values ==> values[i] >= 0
    ensures SumTo(values, n) >= 0
    ensures 0 < k <= n ==> SumTo(values, n) >= ValueAt(values, k)
  {
    if n > 0 {
      SumAtLeast(values, k, n - 1);
    }
  }

  // ---------------------------------------------------------------- liquidity and claims

  function Liquidities(positions: map<nat, Position>): map<nat, int> {
    map id | id in positions :: positions[id].liquidity
  }

  function LiveLiquidity(s: State): int {
    SumTo(Liquidities(s.positions), s.positionCount)
  }

  function RangeLiquidities(positions: map<nat, Position>, tick: int): map<nat, int> {
    map id | id in positions ::
      if positions[id].tickLower <= tick < positions[id].tickUpper then positions[id].liquidity else 0
  }

  /** Liquidity of the positions whose range holds a tick. */
  function LiquidityAt(s: State, tick: int): int {
    SumTo(RangeLiquidities(s.positions, tick), s.positionCount)
  }

  /** Growth a position has not been credited for yet, times its liquidity. */
  function Claim(s: State, p: Position, isA: bool): int {
    p.liquidity * (InsideNow(s, p, isA) - InsideLast(p, isA))
  }

  function ClaimMap(s: State, isA: bool): map<nat, int> {
    map id | id in s.positions :: Claim(s, s.positions[id], isA)
  }

  function Claims(s: State, isA: bool): int {
    SumTo(ClaimMap(s, isA), s.positionCount)
  }

  /** Checkpoints never run ahead of the growth. */
  predicate Behind(s: State, isA: bool) {
    forall id :: id in s.positions ==> InsideLast(s.positions[id], isA) <= InsideNow(s, s.positions[id], isA)
  }

  // ---------------------------------------------------------------- accounts of a run

  /** Fee charged by a call in one token. */
  function FeeOf(s: State, e: TimedCall, isA: bool): int
    requires Valid(s)
  {
    if e.call.Swap? && e.call.zeroForOne == isA && Execute(s, e.now, e.call).Done? then
      Execute(s, e.now, e.call).receipt.feePaid
    else 0
  }

  /** Fee tokens a call credits to a position. */
  function CreditOf(s: State, e: TimedCall, isA: bool): int
    requires Valid(s)
  {
    if (e.call.RemoveLiquidity? || e.call.CollectFees?) && Execute(s, e.now, e.call).Done? then
      var p := s.positions[e.call.positionId];
      Accrual(p.liquidity, InsideNow(s, p, isA), InsideLast(p, isA))
    else 0
  }

  /** Growth handed to positions beyond the liquidity it was computed for: the pool keeps its
      liquidity when a tick is crossed, while the ranges holding the tick change. */
  function SurplusOf(s: State, e: TimedCall, isA: bool): int
    requires Valid(s)
  {
    Increment(s, e, isA) * (LiquidityAt(s, Step(s, e.now, e.call).pool.currentTick) - s.pool.liquidity)
  }

  function Charged(s: State, calls: seq<TimedCall>, isA: bool): int
    requires Valid(s)
    decreases |calls|
  {
    hide Valid, Run, FeeOf;
    if calls == [] then 0
    else
      var last, front := calls[|calls| - 1], calls[..|calls| - 1];
      Charged(s, front, isA) + FeeOf(Run(s, front), last, isA)
  }

  function Credited(s: State, calls: seq<TimedCall>, isA: bool): int
    requires Valid(s)
    decreases |calls|
  {
    hide Valid, Run, CreditOf;
    if calls == [] then 0
    else
      var last, front := calls[|calls| - 1], calls[..|calls| - 1];
      Credited(s, front, isA) + CreditOf(Run(s, front), last, isA)
  }

  function Surplus(s: State, calls: seq<TimedCall>, isA: bool): int
    requires Valid(s)
    decreases |calls|
  {
    hide Valid, Run, SurplusOf;
    if calls == [] then 0
    else
      var last, front := calls[|calls| - 1], calls[..|calls| - 1];
      Surplus(s, front, isA) + SurplusOf(Run(s, front), last, isA)
  }

  // ---------------------------------------------------------------- one call

  /** The balance of one call: credits and new claims against old claims, the fee and the surplus. */
  predicate Balanced(s: State, e: TimedCall, isA: bool)
    requires Valid(s)
  {
    var t := Step(s, e.now, e.call);
    && Q64 * CreditOf(s, e, isA) + Claims(t, isA) <= Claims(s, isA) + Q64 * FeeOf(s, e, isA) + SurplusOf(s, e, isA)
    && Behind(t, isA)
  }

  lemma FeeCoversGrowth(fee: int, liquidity: int)
    requires fee >= 0 && liquidity > 0
    ensures liquidity * FeeIncrement(fee, liquidity) <= Q64 * fee
  {
    DivBounds(fee * Q64, liquidity);
  }

  lemma SwapClaims(s: State, e: TimedCall, isA: bool)
    requires Valid(s) && e.call.Swap? && Execute(s, e.now, e.call).Done? && Behind(s, isA)
    ensures var t := Step(s, e.now, e.call);
      && Claims(t, isA) == Claims(s, isA) + Increment(s, e, isA) * LiquidityAt(s, t.pool.currentTick)
      && Behind(t, isA)
  {
    hide ComputeSwapStep, TargetPrice, TickAt, MovedPool, MovedOutside, FeeGrowthInside, Increment, Fees.PositiveHistory,
      ValidPool;
    var t := Step(s, e.now, e.call);
    assert t.positions == s.positions && t.positionCount == s.positionCount;
    var inc := Increment(s, e, isA);
    var u, v, w := ClaimMap(s, isA), ClaimMap(t, isA), RangeLiquidities(s.positions, t.pool.currentTick);
    forall id | id in s.positions
      ensures ValueAt(v, id) == ValueAt(u, id) + inc * ValueAt(w, id)
      ensures InsideLast(s.positions[id], isA) <= InsideNow(t, s.positions[id], isA)
    {
      var p := s.positions[id];
      StepInside(s, e, p.tickLower, p.tickUpper, isA);
      ClaimGrows(p.liquidity, InsideNow(s, p, isA), InsideNow(t, p, isA), InsideLast(p, isA), inc,
                 p.tickLower <= t.pool.currentTick < p.tickUpper);
    }
    SumShifts(u, v, w, inc, s.positionCount);
  }

  lemma ClaimGrows(liquidity: int, before: int, after: int, last: int, inc: int, inRange: bool)
    requires after == before + (if inRange then inc else 0)
    ensures liquidity * (after - last) == liquidity * (before - last) + inc * (if inRange then liquidity else 0)
  {
  }

  lemma SwapFee(s: State, e: TimedCall, isA: bool)
    requires Valid(s) && e.call.Swap? && Execute(s, e.now, e.call).Done?
    ensures s.pool.liquidity > 0
    ensures s.pool.liquidity * Increment(s, e, isA) <= Q64 * FeeOf(s, e, isA)
  {
    hide ComputeSwapStep, TargetPrice, TickAt, MovedPool, MovedOutside, FeeIncrement, Fees.PositiveHistory,
      ValidPosition;
    SwapPrice(s, e.call);
    if e.call.zeroForOne == isA {
      FeeCoversGrowth(FeeOf(s, e, isA), s.pool.liquidity);
    }
  }

  lemma SwapBalanced(s: State, e: TimedCall, isA: bool)
    requires Valid(s) && e.call.Swap? && Execute(s, e.now, e.call).Done? && Behind(s, isA)
    ensures Balanced(s, e, isA)
  {
    hide Valid, Execute, Step, Claims, Behind, LiquidityAt, Increment, FeeOf;
    SwapClaims(s, e, isA);
    SwapFee(s, e, isA);
    var inc, at, l := Increment(s, e, isA), LiquidityAt(s, Step(s, e.now, e.call).pool.currentTick), s.pool.liquidity;
    assert inc * (at - l) == inc * at - l * inc;
  }

  /** Readings of the growth depend only on the tick and the accumulators. */
  lemma SameReadings(s: State, t: State, p: Position, isA: bool)
    requires t.pool.currentTick == s.pool.currentTick && t.outside == s.outside
    requires t.pool.feeGrowthA == s.pool.feeGrowthA && t.pool.feeGrowthB == s.pool.feeGrowthB
    ensures InsideNow(t, p, isA) == InsideNow(s, p, isA)
    ensures Claim(t, p, isA) == Claim(s, p, isA)
  {
  }

  lemma AddBalanced(s: State, e: TimedCall, isA: bool)
    requires Valid(s) && e.call.AddLiquidity? && Execute(s, e.now, e.call).Done? && Behind(s, isA)
    ensures Balanced(s, e, isA)
  {
    hide PriceAt, LiquidityMath.AmountsForLiquidity, LiquidityMath.LiquidityFromAmounts, Hedged, ValidPool,
      Tokens.TransferIfPositive, FeeGrowthInside, Fees.PositiveHistory, Claim, InsideNow;
    var t, id := Step(s, e.now, e.call), s.positionCount + 1;
    OtherCallsKeepFees(s, e.now, e.call);
    assert t.positions == s.positions[id := t.positions[id]] && t.positionCount == id && id !in s.positions;
    forall i, p {:trigger Claim(t, p, isA), s.positions[i]} | i in s.positions && p == s.positions[i]
      ensures Claim(t, p, isA) == Claim(s, p, isA)
      ensures InsideNow(t, p, isA) == InsideNow(s, p, isA)
    {
      SameReadings(s, t, p, isA);
    }
    NewClaim(s, e, isA);
    forall i: nat
      ensures ValueAt(ClaimMap(t, isA), i) == ValueAt(ClaimMap(s, isA), i)
    {
      if i in s.positions {
        assert Claim(t, s.positions[i], isA) == Claim(s, s.positions[i], isA);
      }
    }
    SumSame(ClaimMap(s, isA), ClaimMap(t, isA), s.positionCount);
    forall i | i in t.positions
      ensures InsideLast(t.positions[i], isA) <= InsideNow(t, t.positions[i], isA)
    {
      if i in s.positions {
        SameReadings(s, t, s.positions[i], isA);
      }
    }
  }

  /** A new position starts with nothing to claim. */
  lemma NewClaim(s: State, e: TimedCall, isA: bool)
    requires Valid(s) && e.call.AddLiquidity? && Execute(s, e.now, e.call).Done?
    ensures var t, id := Step(s, e.now, e.call), s.positionCount + 1;
      && id in t.positions
      && Claim(t, t.positions[id], isA) == 0
      && InsideLast(t.positions[id], isA) == InsideNow(t, t.positions[id], isA)
  {
    hide PriceAt, LiquidityMath.AmountsForLiquidity, LiquidityMath.LiquidityFromAmounts, Hedged, ValidPool,
      Tokens.TransferIfPositive, FeeGrowthInside, Fees.PositiveHistory, InsideNow;
    var t, id := Step(s, e.now, e.call), s.positionCount + 1;
    OtherCallsKeepFees(s, e.now, e.call);
    var p := t.positions[id];
    SameReadings(s, t, p, isA);
    InsideOfNew(s, e.now, e.call, p.liquidity, isA);
    assert p.liquidity * 0 == 0;
  }

  lemma InsideOfNew(s: State, now: nat, c: Call, liquidity: int, isA: bool)
    requires c.AddLiquidity?
    ensures InsideLast(NewPosition(s, now, c, liquidity), isA) == InsideNow(s, NewPosition(s, now, c, liquidity), isA)
  {
  }

  /** What a removal or a collection does to the position it names and to nothing else. */
  lemma CreditedPosition(s: State, e: TimedCall, isA: bool)
    requires Valid(s) && (e.call.RemoveLiquidity? || e.call.CollectFees?) && Execute(s, e.now, e.call).Done?
    ensures var t, id := Step(s, e.now, e.call), e.call.positionId;
      && id in s.positions && t.positionCount == s.positionCount
      && (forall i :: i != id ==> (i in t.positions <==> i in s.positions))
      && (forall i :: i != id && i in s.positions ==> t.positions[i] == s.positions[i])
      && (id in t.positions ==>
            && t.positions[id].tickLower == s.positions[id].tickLower
            && t.positions[id].tickUpper == s.positions[id].tickUpper
            && InsideLast(t.positions[id], isA) == InsideNow(s, s.positions[id], isA))
  {
    hide PriceAt, LiquidityMath.AmountsForLiquidity, ValidPool, HedgeRelease, Tokens.TransferIfPositive,
      FeeGrowthInside, Fees.PositiveHistory, Accrual, AccrualFits, InsideNow, Without, Deactivate;
  }

  lemma CreditBalanced(s: State, e: TimedCall, isA: bool)
    requires Valid(s) && (e.call.RemoveLiquidity? || e.call.CollectFees?) && Execute(s, e.now, e.call).Done?
    requires Behind(s, isA)
    ensures Balanced(s, e, isA)
  {
    hide Execute, FeeGrowthInside, InsideNow, Accrual, Step, ValidPool, Fees.PositiveHistory;
    var t, id := Step(s, e.now, e.call), e.call.positionId;
    CreditedPosition(s, e, isA);
    assert t.pool.currentTick == s.pool.currentTick && t.outside == s.outside
        && t.pool.feeGrowthA == s.pool.feeGrowthA && t.pool.feeGrowthB == s.pool.feeGrowthB by {
      KeepsFees(s, e);
    }
    var u, v := ClaimMap(s, isA), ClaimMap(t, isA);
    forall i | i in t.positions
      ensures i != id ==> ValueAt(v, i) == ValueAt(u, i)
      ensures i == id ==> ValueAt(v, i) == 0
      ensures InsideLast(t.positions[i], isA) <= InsideNow(t, t.positions[i], isA)
    {
      SameReadings(s, t, t.positions[i], isA);
      if i == id {
        SameRange(s, t.positions[i], s.positions[i], isA);
        assert t.positions[i].liquidity * 0 == 0;
      }
    }
    SumChangesAt(u, v, id, s.positionCount);
    CreditWithinClaim(s, s.positions[id], isA);
    assert Increment(s, e, isA) == 0;
  }

  lemma KeepsFees(s: State, e: TimedCall)
    requires Valid(s) && !e.call.Swap? && Execute(s, e.now, e.call).Done?
    ensures var t := Step(s, e.now, e.call);
      && t.pool.currentTick == s.pool.currentTick && t.outside == s.outside
      && t.pool.feeGrowthA == s.pool.feeGrowthA && t.pool.feeGrowthB == s.pool.feeGrowthB
  {
    hide Execute, Valid;
    OtherCallsKeepFees(s, e.now, e.call);
  }

  lemma SameRange(s: State, p: Position, q: Position, isA: bool)
    requires p.tickLower == q.tickLower && p.tickUpper == q.tickUpper
    ensures InsideNow(s, p, isA) == InsideNow(s, q, isA)
  {
  }

  /** The floor of a credit never exceeds the claim it settles. */
  lemma CreditWithinClaim(s: State, p: Position, isA: bool)
    requires p.liquidity > 0 && InsideLast(p, isA) <= InsideNow(s, p, isA)
    ensures Q64 * Accrual(p.liquidity, InsideNow(s, p, isA), InsideLast(p, isA)) <= Claim(s, p, isA)
  {
    hide FeeGrowthInside, InsideNow;
    var d := InsideNow(s, p, isA) - InsideLast(p, isA);
    MulNonNegative(p.liquidity, d);
    DivBounds(p.liquidity * d, Q64);
  }

  lemma IdleBalanced(s: State, e: TimedCall, isA: bool)
    requires Valid(s) && Behind(s, isA)
    requires e.call.UpdateDynamicFee? || e.call.SetPaused? || Execute(s, e.now, e.call).Failed?
    ensures Balanced(s, e, isA)
  {
    hide Fees.DynamicFee, FeeGrowthInside, InsideNow, Fees.PositiveHistory, DoAdd, DoRemove, DoCollect, DoSwap;
    var t := Step(s, e.now, e.call);
    assert t.positions == s.positions && t.positionCount == s.positionCount;
    if Execute(s, e.now, e.call).Done? {
      KeepsFees(s, e);
    }
    forall i | i in s.positions
      ensures Claim(t, s.positions[i], isA) == Claim(s, s.positions[i], isA)
      ensures InsideNow(t, s.positions[i], isA) == InsideNow(s, s.positions[i], isA)
    {
      SameReadings(s, t, s.positions[i], isA);
    }
    assert ClaimMap(t, isA) == ClaimMap(s, isA);
  }

  lemma StepBalanced(s: State, e: TimedCall, isA: bool)
    requires Valid(s) && Behind(s, isA)
    ensures Balanced(s, e, isA)
  {
    hide Valid, Execute, Balanced, Behind;
    if Execute(s, e.now, e.call).Failed? {
      IdleBalanced(s, e, isA);
    } else {
      match e.call
      case AddLiquidity(_, _, _, _, _, _, _) => AddBalanced(s, e, isA);
      case RemoveLiquidity(_, _, _, _, _) => CreditBalanced(s, e, isA);
      case CollectFees(_, _) => CreditBalanced(s, e, isA);
      case Swap(_, _, _, _) => SwapBalanced(s, e, isA);
      case UpdateDynamicFee => IdleBalanced(s, e, isA);
      case SetPaused(_) => IdleBalanced(s, e, isA);
    }
  }

  // ---------------------------------------------------------------- whole runs

  /** Over any run: credits plus what is left to claim, against fees plus the surplus. */
  lemma {:induction false} RunBalanced(s: State, calls: seq<TimedCall>, isA: bool)
    requires Valid(s) && Behind(s, isA)
    ensures var t := Run(s, calls);
      && Q64 * Credited(s, calls, isA) + Claims(t, isA)
         <= Claims(s, isA) + Q64 * Charged(s, calls, isA) + Surplus(s, calls, isA)
      && Behind(t, isA)
    decreases |calls|
  {
    hide Valid, Behind, Claims, Step, FeeOf, CreditOf, SurplusOf;
    if calls != [] {
      var last, front := calls[|calls| - 1], calls[..|calls| - 1];
      RunBalanced(s, front, isA);
      StepBalanced(Run(s, front), last, isA);
    }
  }

  lemma ClaimsNonNegative(s: State, isA: bool)
    requires Valid(s) && Behind(s, isA)
    ensures Claims(s, isA) >= 0
  {
    hide FeeGrowthInside, InsideNow, ValidPool, Fees.PositiveHistory;
    forall id | id in s.positions
      ensures ClaimMap(s, isA)[id] >= 0
    {
      MulNonNegative(s.positions[id].liquidity, InsideNow(s, s.positions[id], isA) - InsideLast(s.positions[id], isA));
    }
    SumAtLeast(ClaimMap(s, isA), 0, s.positionCount);
  }

  lemma NewPoolHasNoClaims(feeTier: nat, initialPrice: int, tokensA: Tokens.Balances, tokensB: Tokens.Balances, isA: bool)
    requires CreatePool(feeTier, initialPrice, tokensA, tokensB).Some?
    ensures var s := CreatePool(feeTier, initialPrice, tokensA, tokensB).value;
      Valid(s) && Behind(s, isA) && Claims(s, isA) == 0
  {
    hide TickAt, InsideNow;
  }

  /** Over any run from pool creation, the fees ever credited are within the fees ever charged plus
      the surplus that tick crossings hand out. */
  lemma CreditsWithinFees(
    feeTier: nat, initialPrice: int, tokensA: Tokens.Balances, tokensB: Tokens.Balances,
    calls: seq<TimedCall>, isA: bool)
    requires CreatePool(feeTier, initialPrice, tokensA, tokensB).Some?
    ensures var s := CreatePool(feeTier, initialPrice, tokensA, tokensB).value;
      && Q64 * Credited(s, calls, isA) <= Q64 * Charged(s, calls, isA) + Surplus(s, calls, isA)
      && (Surplus(s, calls, isA) <= 0 ==> Credited(s, calls, isA) <= Charged(s, calls, isA))
  {
    hide Valid, CreatePool, Behind, Claims, Credited, Charged, Surplus, Run;
    NewPoolHasNoClaims(feeTier, initialPrice, tokensA, tokensB, isA);
    var s := CreatePool(feeTier, initialPrice, tokensA, tokensB).value;
    RunBalanced(s, calls, isA);
    ClaimsNonNegative(Run(s, calls), isA);
  }

  // ---------------------------------------------------------------- positions that stay in range

  /** The current tick lies in the range of every live position. */
  predicate Covered(s: State) {
    forall id :: id in s.positions ==> InRange(s.pool, s.positions[id].tickLower, s.positions[id].tickUpper)
  }

  /** Every state of the run is covered. */
  predicate AlwaysCovered(s: State, calls: seq<TimedCall>)
    requires Valid(s)
    decreases |calls|
  {
    hide Valid, Run, Covered;
    && Covered(Run(s, calls))
    && (calls != [] ==> AlwaysCovered(s, calls[..|calls| - 1]))
  }

  lemma CoveredAdd(s: State, e: TimedCall)
    requires Valid(s) && e.call.AddLiquidity? && Execute(s, e.now, e.call).Done?
    requires Covered(Step(s, e.now, e.call)) && s.pool.liquidity == LiveLiquidity(s)
    ensures var t := Step(s, e.now, e.call); t.pool.liquidity == LiveLiquidity(t)
  {
    hide PriceAt, LiquidityMath.AmountsForLiquidity, LiquidityMath.LiquidityFromAmounts, Hedged, ValidPool,
      Tokens.TransferIfPositive, FeeGrowthInside, Fees.PositiveHistory;
    var t, id := Step(s, e.now, e.call), s.positionCount + 1;
    assert InRange(t.pool, t.positions[id].tickLower, t.positions[id].tickUpper);
    SumSame(Liquidities(s.positions), Liquidities(t.positions), s.positionCount);
  }

  lemma CoveredRemove(s: State, e: TimedCall)
    requires Valid(s) && e.call.RemoveLiquidity? && Execute(s, e.now, e.call).Done?
    requires Covered(s) && s.pool.liquidity == LiveLiquidity(s)
    ensures var t := Step(s, e.now, e.call); t.pool.liquidity == LiveLiquidity(t)
  {
    hide PriceAt, LiquidityMath.AmountsForLiquidity, HedgeRelease, Tokens.TransferIfPositive,
      FeeGrowthInside, Fees.PositiveHistory, Accrual, AccrualFits, InsideNow, Without, ValidPool;
    var t, id := Step(s, e.now, e.call), e.call.positionId;
    var p := s.positions[id];
    assert InRange(s.pool, p.tickLower, p.tickUpper);
    SumAtLeast(Liquidities(s.positions), id, s.positionCount);
    SumChangesAt(Liquidities(s.positions), Liquidities(t.positions), id, s.positionCount);
  }

  lemma CoveredSwap(s: State, e: TimedCall)
    requires Valid(s) && (e.call.Swap? || e.call.UpdateDynamicFee? || e.call.SetPaused?) && Execute(s, e.now, e.call).Done?
    ensures var t := Step(s, e.now, e.call);
      t.pool.liquidity == s.pool.liquidity && t.positions == s.positions && t.positionCount == s.positionCount
  {
    hide ComputeSwapStep, TargetPrice, TickAt, MovedOutside, AccumulateFeeGrowth, ValidPool, Fees.PositiveHistory,
      Fees.DynamicFee;
  }

  lemma CoveredCollect(s: State, e: TimedCall)
    requires Valid(s) && e.call.CollectFees? && Execute(s, e.now, e.call).Done?
    ensures var t := Step(s, e.now, e.call);
      t.pool == s.pool && LiveLiquidity(t) == LiveLiquidity(s)
  {
    hide FeeGrowthInside, Fees.PositiveHistory, Accrual, AccrualFits, InsideNow, ValidPool, Tokens.TransferIfPositive;
    var t := Step(s, e.now, e.call);
    SumSame(Liquidities(s.positions), Liquidities(t.positions), s.positionCount);
  }

  lemma CoveredStep(s: State, e: TimedCall)
    requires Valid(s) && Covered(s) && Covered(Step(s, e.now, e.call)) && s.pool.liquidity == LiveLiquidity(s)
    ensures var t := Step(s, e.now, e.call); t.pool.liquidity == LiveLiquidity(t)
  {
    hide Valid, Execute, Covered;
    if Execute(s, e.now, e.call).Done? {
      match e.call
      case AddLiquidity(_, _, _, _, _, _, _) => CoveredAdd(s, e);
      case RemoveLiquidity(_, _, _, _, _) => CoveredRemove(s, e);
      case CollectFees(_, _) => CoveredCollect(s, e);
      case Swap(_, _, _, _) => CoveredSwap(s, e);
      case UpdateDynamicFee => CoveredSwap(s, e);
      case SetPaused(_) => CoveredSwap(s, e);
    }
  }

  /** A swap between covered states computes its growth for exactly the liquidity it is given to. */
  lemma CoveredHasNoSurplus(s: State, e: TimedCall, isA: bool)
    requires Valid(s) && Covered(Step(s, e.now, e.call)) && s.pool.liquidity == LiveLiquidity(s)
    ensures SurplusOf(s, e, isA) == 0
  {
    hide Valid, Execute, Step, FeeIncrement;
    if e.call.Swap? && Execute(s, e.now, e.call).Done? {
      CoveredSwap(s, e);
      var t := Step(s, e.now, e.call);
      SumSame(Liquidities(s.positions), RangeLiquidities(s.positions, t.pool.currentTick), s.positionCount);
    }
  }

  lemma {:induction false} CoveredRun(s: State, calls: seq<TimedCall>, isA: bool)
    requires Valid(s) && AlwaysCovered(s, calls) && s.pool.liquidity == LiveLiquidity(s)
    ensures Run(s, calls).pool.liquidity == LiveLiquidity(Run(s, calls))
    ensures Surplus(s, calls, isA) == 0
    decreases |calls|
  {
    hide Valid, Covered, Step, SurplusOf, LiveLiquidity;
    if calls != [] {
      var last, front := calls[|calls| - 1], calls[..|calls| - 1];
      CoveredRun(s, front, isA);
      assert Covered(Run(s, front));
      CoveredStep(Run(s, front), last);
      CoveredHasNoSurplus(Run(s, front), last, isA);
    }
  }

  /** While the current tick stays inside every live position's range, the pool's liquidity is the
      sum of the live positions', and the fees ever credited never exceed the fees ever charged. */
  lemma FeesAreBounded(
    feeTier: nat, initialPrice: int, tokensA: Tokens.Balances, tokensB: Tokens.Balances,
    calls: seq<TimedCall>, isA: bool)
    requires CreatePool(feeTier, initialPrice, tokensA, tokensB).Some?
    requires AlwaysCovered(CreatePool(feeTier, initialPrice, tokensA, tokensB).value, calls)
    ensures var s := CreatePool(feeTier, initialPrice, tokensA, tokensB).value;
      && Run(s, calls).pool.liquidity == LiveLiquidity(Run(s, calls))
      && Credited(s, calls, isA) <= Charged(s, calls, isA)
  {
    hide Valid, Run, TickAt, Credited, Charged, Surplus, AlwaysCovered;
    var s := CreatePool(feeTier, initialPrice, tokensA, tokensB).value;
    CoveredRun(s, calls, isA);
    CreditsWithinFees(feeTier, initialPrice, tokensA, tokensB, calls, isA);
  }
}
