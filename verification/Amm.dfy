/** The pool state machine of the AMM contract for one pair of tokens: every entry point as a
    function from the stored state to a new state or an error, and runs of calls. */
module Amm {
  import opened Common
  import opened Ledger
  import opened FixedPoint
  import opened TickMap
  import opened SwapMath
  import opened IlHedge
  import LiquidityMath
  import Fees

  const CONTRACT: Address := 0

  datatype PoolState = PoolState(
    sqrtPrice: int,
    currentTick: int,
    liquidity: int,
    feeTier: nat,
    dynamicFeeBps: nat,
    feeGrowthA: int,
    feeGrowthB: int,
    totalVolume: int,
    activeLiquidity: int,
    ilReserveA: int,
    ilReserveB: int)

  datatype Position = Position(
    id: nat,
    owner: Address,
    tickLower: int,
    tickUpper: int,
    liquidity: int,
    insideLastA: int,
    insideLastB: int,
    owedA: int,
    owedB: int,
    createdAt: nat)

  /** Fee growth outside a tick is stored per tick and per token; true stands for token A. */
  type OutsideFees = map<(int, bool), int>

  datatype State = State(
    pool: PoolState,
    outside: OutsideFees,
    positions: map<nat, Position>,
    positionCount: nat,
    ownerIndex: map<Address, seq<nat>>,
    samples: map<nat, int>,
    tokensA: Balances,
    tokensB: Balances,
    paused: bool)

  datatype Call =
    | AddLiquidity(caller: Address, tickLower: int, tickUpper: int,
                   desiredA: int, desiredB: int, minA: int, minB: int)
    | RemoveLiquidity(caller: Address, positionId: nat, liquidity: int, minA: int, minB: int)
    | CollectFees(caller: Address, positionId: nat)
    | Swap(caller: Address, zeroForOne: bool, amountIn: int, minAmountOut: int)
    | UpdateDynamicFee
    /** Pausing and unpausing, by a caller that access control lets through. */
    | SetPaused(value: bool)

  datatype Receipt =
    | Added(positionId: nat, amountA: int, amountB: int, liquidity: int)
    | Removed(amountA: int, amountB: int, hedgeA: int, hedgeB: int)
    | Collected(amountA: int, amountB: int)
    | Swapped(amountIn: int, amountOut: int, feePaid: int, newSqrtPrice: int, newTick: int)
    | FeeUpdated(feeBps: nat)
    | PauseSet

  /** The contract's errors; Aborted stands for an arithmetic overflow or a failing transfer. */
  datatype Error =
    | InvalidTickRange
    | InsufficientLiquidity
    | InvalidAmount
    | Unauthorized
    | Paused
    | InvalidFeeTier
    | PoolAlreadyExists
    | PoolNotFound
    | PositionNotFound
    | SlippageExceeded
    | Aborted

  datatype Outcome = Done(state: State, receipt: Receipt) | Failed(error: Error)

  // ---------------------------------------------------------------- well-formed states

  predicate ValidPool(pool: PoolState) {
    && 0 < pool.sqrtPrice <= I128_MAX
    && pool.currentTick == TickAt(pool.sqrtPrice)
    && 0 <= pool.liquidity <= I128_MAX
    && Fees.IsValidFeeTier(pool.feeTier)
    && pool.feeTier <= pool.dynamicFeeBps <= pool.feeTier + Fees.MAX_FEE_PREMIUM_BPS
    && 0 <= pool.ilReserveA && 0 <= pool.ilReserveB
  }

  predicate ValidPosition(id: nat, p: Position) {
    && p.id == id
    && Supported(p.tickLower) && Supported(p.tickUpper) && p.tickLower < p.tickUpper
    && p.liquidity > 0
  }

  predicate Valid(s: State) {
    && ValidPool(s.pool)
    && Fees.PositiveHistory(s.samples)
    && (forall id :: id in s.positions ==> 0 < id <= s.positionCount && ValidPosition(id, s.positions[id]))
  }

  // ---------------------------------------------------------------- creation

  /** A new pool. The initial price may be any positive number, in the table or not. */
  function CreatePool(feeTier: nat, initialPrice: int, tokensA: Balances, tokensB: Balances): (r: Option<State>)
    ensures r.Some? <==> Fees.IsValidFeeTier(feeTier) && 0 < initialPrice <= I128_MAX
    ensures r.Some? ==> Valid(r.value)
  {
    if !Fees.IsValidFeeTier(feeTier) || initialPrice <= 0 || initialPrice > I128_MAX then None
    else
      var pool := PoolState(initialPrice, TickAt(initialPrice), 0, feeTier, feeTier, 0, 0, 0, 0, 0, 0);
      Some(State(pool, map[], map[], 0, map[], map[], tokensA, tokensB, false))
  }

  // ---------------------------------------------------------------- fee growth per tick

  function GrowthGlobal(pool: PoolState, isA: bool): int {
    if isA then pool.feeGrowthA else pool.feeGrowthB
  }

  function ReadOutside(outside: OutsideFees, tick: int, isA: bool): int {
    if (tick, isA) in outside then outside[(tick, isA)] else 0
  }

  function GrowthBelow(pool: PoolState, outside: OutsideFees, tick: int, isA: bool): int {
    if pool.currentTick >= tick then ReadOutside(outside, tick, isA)
    else GrowthGlobal(pool, isA) - ReadOutside(outside, tick, isA)
  }

  function GrowthAbove(pool: PoolState, outside: OutsideFees, tick: int, isA: bool): int {
    if pool.currentTick < tick then ReadOutside(outside, tick, isA)
    else GrowthGlobal(pool, isA) - ReadOutside(outside, tick, isA)
  }

  /** Fee growth inside a range, from four stored numbers and the global growth. */
  function FeeGrowthInside(pool: PoolState, outside: OutsideFees, lower: int, upper: int, isA: bool): int {
    GrowthGlobal(pool, isA) - GrowthBelow(pool, outside, lower, isA) - GrowthAbove(pool, outside, upper, isA)
  }

  /** Crossing a tick mirrors what is stored for it about the global growth. */
  function CrossTick(pool: PoolState, outside: OutsideFees, tick: int): OutsideFees {
    outside[(tick, true) := pool.feeGrowthA - ReadOutside(outside, tick, true)]
           [(tick, false) := pool.feeGrowthB - ReadOutside(outside, tick, false)]
  }

  // ---------------------------------------------------------------- adding liquidity

  function Index(ownerIndex: map<Address, seq<nat>>, owner: Address): seq<nat> {
    if owner in ownerIndex then ownerIndex[owner] else []
  }

  function DoAdd(s: State, now: nat, c: Call): Outcome
    requires Valid(s) && c.AddLiquidity?
  {
    if s.paused then Failed(Paused)
    else if c.tickLower >= c.tickUpper then Failed(InvalidTickRange)
    else if c.desiredA <= 0 && c.desiredB <= 0 then Failed(InvalidAmount)
    else if !Supported(c.tickLower) || !Supported(c.tickUpper) then Failed(InvalidTickRange)
    else
      var lower, upper, price := PriceAt(c.tickLower), PriceAt(c.tickUpper), s.pool.sqrtPrice;
      match LiquidityMath.LiquidityFromAmounts(c.desiredA, c.desiredB, lower, upper, price)
      case Overflow => Failed(Aborted)
      case Ok(liquidity) =>
        if liquidity == 0 then Failed(InsufficientLiquidity)
        else
          match LiquidityMath.AmountsForLiquidity(liquidity, lower, upper, price)
          case Overflow => Failed(Aborted)
          case Ok((a, b)) =>
            if a < c.minA || b < c.minB then Failed(SlippageExceeded)
            else Mint(s, now, c, liquidity, a, b)
  }

  predicate InRange(pool: PoolState, lower: int, upper: int) {
    lower <= pool.currentTick < upper
  }

  function Activate(pool: PoolState, lower: int, upper: int, liquidity: int): PoolState {
    var grown :=
      if InRange(pool, lower, upper) then
        pool.(liquidity := pool.liquidity + liquidity, activeLiquidity := pool.activeLiquidity + liquidity)
      else pool;
    grown.(activeLiquidity := Max(grown.activeLiquidity, 0))
  }

  function NewPosition(s: State, now: nat, c: Call, liquidity: int): Position
    requires c.AddLiquidity?
  {
    Position(s.positionCount + 1, c.caller, c.tickLower, c.tickUpper, liquidity,
      FeeGrowthInside(s.pool, s.outside, c.tickLower, c.tickUpper, true),
      FeeGrowthInside(s.pool, s.outside, c.tickLower, c.tickUpper, false),
      0, 0, now)
  }

  /** What a deposit of the two amounts adds to the hedge reserve. */
  function Hedged(s: State, c: Call, a: int, b: int): (int, int)
    requires c.AddLiquidity?
  {
    HedgeReserve(EstimateIlBps(c.tickLower, c.tickUpper, s.pool.sqrtPrice), a, b)
  }

  function Mint(s: State, now: nat, c: Call, liquidity: int, a: int, b: int): Outcome
    requires c.AddLiquidity?
  {
    var pool := Activate(s.pool, c.tickLower, c.tickUpper, liquidity);
    var (reserveA, reserveB) := Hedged(s, c, a, b);
    var paidA := TransferIfPositive(s.tokensA, c.caller, CONTRACT, a);
    var paidB := TransferIfPositive(s.tokensB, c.caller, CONTRACT, b);
    if paidA.None? || paidB.None? || !Fits(pool.liquidity) || !Fits(pool.activeLiquidity)
       || !Fits(a * HEDGE_RATIO_BPS) || !Fits(b * HEDGE_RATIO_BPS)
       || !Fits(pool.ilReserveA + reserveA) || !Fits(pool.ilReserveB + reserveB) then
      Failed(Aborted)
    else
      var id := s.positionCount + 1;
      Done(
        s.(pool := pool.(ilReserveA := pool.ilReserveA + reserveA, ilReserveB := pool.ilReserveB + reserveB),
           positions := s.positions[id := NewPosition(s, now, c, liquidity)],
           positionCount := id,
           ownerIndex := s.ownerIndex[c.caller := Index(s.ownerIndex, c.caller) + [id]],
           tokensA := paidA.value,
           tokensB := paidB.value),
        Added(id, a, b, liquidity))
  }

  // ---------------------------------------------------------------- fee accrual

  /** Fee tokens a position earns between two readings of the growth inside its range. */
  function Accrual(liquidity: int, now: int, last: int): int {
    if now - last > 0 then TruncDiv(liquidity * (now - last), Q64) else 0
  }

  predicate AccrualFits(liquidity: int, now: int, last: int, owed: int) {
    now - last > 0 ==> Fits(liquidity * (now - last)) && Fits(owed + Accrual(liquidity, now, last))
  }

  function InsideNow(s: State, p: Position, isA: bool): int {
    FeeGrowthInside(s.pool, s.outside, p.tickLower, p.tickUpper, isA)
  }

  function InsideLast(p: Position, isA: bool): int {
    if isA then p.insideLastA else p.insideLastB
  }

  /** Credits a position with two readings of the growth and makes them its checkpoints. */
  function AccruedAt(p: Position, nowA: int, nowB: int): Checked<Position> {
    if !AccrualFits(p.liquidity, nowA, p.insideLastA, p.owedA)
       || !AccrualFits(p.liquidity, nowB, p.insideLastB, p.owedB) then Overflow
    else
      Ok(p.(owedA := p.owedA + Accrual(p.liquidity, nowA, p.insideLastA),
            owedB := p.owedB + Accrual(p.liquidity, nowB, p.insideLastB),
            insideLastA := nowA,
            insideLastB := nowB))
  }

  function Accrued(s: State, p: Position): Checked<Position> {
    AccruedAt(p, InsideNow(s, p, true), InsideNow(s, p, false))
  }

  // ---------------------------------------------------------------- removing liquidity

  function DoRemove(s: State, c: Call): Outcome
    requires Valid(s) && c.RemoveLiquidity?
  {
    if c.positionId !in s.positions then Failed(PositionNotFound)
    else
      var p := s.positions[c.positionId];
      if p.owner != c.caller then Failed(Unauthorized)
      else if c.liquidity <= 0 || c.liquidity > p.liquidity then Failed(InvalidAmount)
      else
        match Accrued(s, p)
        case Overflow => Failed(Aborted)
        case Ok(accrued) =>
          match LiquidityMath.AmountsForLiquidity(
            c.liquidity, PriceAt(p.tickLower), PriceAt(p.tickUpper), s.pool.sqrtPrice)
          case Overflow => Failed(Aborted)
          case Ok((a, b)) =>
            if a < c.minA || b < c.minB then Failed(SlippageExceeded)
            else Burn(s, c, accrued, a, b)
  }

  function Deactivate(pool: PoolState, p: Position, liquidity: int): PoolState {
    if InRange(pool, p.tickLower, p.tickUpper) then
      pool.(liquidity := Max(pool.liquidity - liquidity, 0),
            activeLiquidity := Max(pool.activeLiquidity - liquidity, 0))
    else pool
  }

  function Without(ids: seq<nat>, id: nat): seq<nat> {
    if ids == [] then []
    else
      var front, last := Without(ids[..|ids| - 1], id), ids[|ids| - 1];
      if last != id then front + [last] else front
  }

  function Burn(s: State, c: Call, p: Position, a: int, b: int): Outcome
    requires c.RemoveLiquidity?
  {
    var hedgeA := HedgeRelease(s.pool.ilReserveA, c.liquidity, p.liquidity);
    var hedgeB := HedgeRelease(s.pool.ilReserveB, c.liquidity, p.liquidity);
    var pool := Deactivate(
      s.pool.(ilReserveA := Max(s.pool.ilReserveA - hedgeA, 0), ilReserveB := Max(s.pool.ilReserveB - hedgeB, 0)),
      p, c.liquidity);
    var left := p.(liquidity := p.liquidity - c.liquidity);
    var paidA := TransferIfPositive(s.tokensA, CONTRACT, c.caller, a + hedgeA);
    var paidB := TransferIfPositive(s.tokensB, CONTRACT, c.caller, b + hedgeB);
    if paidA.None? || paidB.None?
       || !Fits(s.pool.ilReserveA * c.liquidity) || !Fits(s.pool.ilReserveB * c.liquidity)
       || !Fits(a + hedgeA) || !Fits(b + hedgeB) then
      Failed(Aborted)
    else
      var whole := left.liquidity == 0;
      Done(
        s.(pool := pool,
           positions := if whole then s.positions - {c.positionId} else s.positions[c.positionId := left],
           ownerIndex :=
             if whole then s.ownerIndex[c.caller := Without(Index(s.ownerIndex, c.caller), c.positionId)]
             else s.ownerIndex,
           tokensA := paidA.value,
           tokensB := paidB.value),
        Removed(a + hedgeA, b + hedgeB, hedgeA, hedgeB))
  }

  // ---------------------------------------------------------------- collecting fees

  function DoCollect(s: State, c: Call): Outcome
    requires Valid(s) && c.CollectFees?
  {
    if c.positionId !in s.positions then Failed(PositionNotFound)
    else
      var p := s.positions[c.positionId];
      if p.owner != c.caller then Failed(Unauthorized)
      else
        match Accrued(s, p)
        case Overflow => Failed(Aborted)
        case Ok(accrued) =>
          var paidA := TransferIfPositive(s.tokensA, CONTRACT, c.caller, accrued.owedA);
          var paidB := TransferIfPositive(s.tokensB, CONTRACT, c.caller, accrued.owedB);
          if paidA.None? || paidB.None? then Failed(Aborted)
          else
            var settled := accrued.(owedA := Min(accrued.owedA, 0), owedB := Min(accrued.owedB, 0));
            Done(
              s.(positions := s.positions[c.positionId := settled],
                 tokensA := paidA.value,
                 tokensB := paidB.value),
              Collected(accrued.owedA, accrued.owedB))
  }

  // ---------------------------------------------------------------- swapping

  /** One tick down or up, kept inside the supported range. */
  function TargetTick(tick: int, zeroForOne: bool): (t: int)
    ensures Supported(t)
  {
    Min(Max(if zeroForOne then tick - 1 else tick + 1, MIN_TICK), MAX_TICK)
  }

  function TargetPrice(pool: PoolState, zeroForOne: bool): (p: int)
    ensures 0 < p <= I128_MAX
  {
    PriceRange(TargetTick(pool.currentTick, zeroForOne));
    PriceAt(TargetTick(pool.currentTick, zeroForOne))
  }

  /** Fee growth per unit of liquidity brought by a fee. */
  function FeeIncrement(fee: int, liquidity: int): int {
    if liquidity <= 0 then 0 else TruncDiv(fee * Q64, liquidity)
  }

  function AccumulateFeeGrowth(fee: int, liquidity: int, growth: int): Checked<int> {
    if liquidity == 0 then Ok(growth)
    else if !Fits(fee * Q64) || !Fits(growth + FeeIncrement(fee, liquidity)) then Overflow
    else Ok(growth + FeeIncrement(fee, liquidity))
  }

  /** The boundary mirrored when a swap changes the tick. */
  function CrossedTick(tick: int, zeroForOne: bool): int {
    if zeroForOne then tick else TargetTick(tick, false)
  }

  function DoSwap(s: State, now: nat, c: Call): Outcome
    requires Valid(s) && c.Swap?
  {
    if s.paused then Failed(Paused)
    else if c.amountIn <= 0 then Failed(InvalidAmount)
    else if s.pool.liquidity == 0 then Failed(InsufficientLiquidity)
    else
      match ComputeSwapStep(s.pool.sqrtPrice, TargetPrice(s.pool, c.zeroForOne), s.pool.liquidity,
                            c.amountIn, s.pool.dynamicFeeBps)
      case Overflow => Failed(Aborted)
      case Ok(step) =>
        if step.amountOut < c.minAmountOut then Failed(SlippageExceeded)
        else ApplySwap(s, now, c, step)
  }

  function MovedPool(pool: PoolState, zeroForOne: bool, step: SwapStep, growth: int): PoolState {
    pool.(sqrtPrice := step.newPrice,
          currentTick := TickAt(step.newPrice),
          feeGrowthA := if zeroForOne then growth else pool.feeGrowthA,
          feeGrowthB := if zeroForOne then pool.feeGrowthB else growth,
          totalVolume := pool.totalVolume + step.amountIn)
  }

  function MovedOutside(pool: PoolState, outside: OutsideFees, zeroForOne: bool, newPrice: int): OutsideFees {
    if TickAt(newPrice) != pool.currentTick then
      CrossTick(pool, outside, CrossedTick(pool.currentTick, zeroForOne))
    else outside
  }

  function ApplySwap(s: State, now: nat, c: Call, step: SwapStep): Outcome
    requires c.Swap?
  {
    var growth := AccumulateFeeGrowth(step.feePaid, s.pool.liquidity, GrowthGlobal(s.pool, c.zeroForOne));
    var tokensIn, tokensOut :=
      if c.zeroForOne then s.tokensA else s.tokensB, if c.zeroForOne then s.tokensB else s.tokensA;
    var paidIn := Transfer(tokensIn, c.caller, CONTRACT, step.amountIn);
    var paidOut := Transfer(tokensOut, CONTRACT, c.caller, step.amountOut);
    if growth.Overflow? || !Fits(s.pool.totalVolume + step.amountIn) || paidIn.None? || paidOut.None? then
      Failed(Aborted)
    else
      Done(
        s.(pool := MovedPool(s.pool, c.zeroForOne, step, growth.value),
           outside := MovedOutside(s.pool, s.outside, c.zeroForOne, step.newPrice),
           samples := s.samples[now / Fees.ORACLE_PERIOD_SECS := s.pool.sqrtPrice],
           tokensA := if c.zeroForOne then paidIn.value else paidOut.value,
           tokensB := if c.zeroForOne then paidOut.value else paidIn.value),
        Swapped(step.amountIn, step.amountOut, step.feePaid, step.newPrice, TickAt(step.newPrice)))
  }

  // ---------------------------------------------------------------- dynamic fee

  function DoUpdateFee(s: State, now: nat): Outcome
    requires Valid(s)
  {
    match Fees.DynamicFee(s.samples, now, s.pool.feeTier)
    case Overflow => Failed(Aborted)
    case Ok(oracle) => Done(s.(pool := s.pool.(dynamicFeeBps := oracle.fee)), FeeUpdated(oracle.fee))
  }

  // ---------------------------------------------------------------- runs

  function Execute(s: State, now: nat, c: Call): Outcome
    requires Valid(s)
  {
    match c
    case AddLiquidity(_, _, _, _, _, _, _) => DoAdd(s, now, c)
    case RemoveLiquidity(_, _, _, _, _) => DoRemove(s, c)
    case CollectFees(_, _) => DoCollect(s, c)
    case Swap(_, _, _, _) => DoSwap(s, now, c)
    case UpdateDynamicFee => DoUpdateFee(s, now)
    case SetPaused(value) => Done(s.(paused := value), PauseSet)
  }

  lemma AddKeepsValid(s: State, now: nat, c: Call)
    requires Valid(s) && c.AddLiquidity? && DoAdd(s, now, c).Done?
    ensures Valid(DoAdd(s, now, c).state)
  {
    hide PriceAt, TickAt, LiquidityMath.AmountsForLiquidity, LiquidityMath.LiquidityFromAmounts, EstimateIlBps,
      TransferIfPositive, FeeGrowthInside, TruncDiv;
    var lower, upper := PriceAt(c.tickLower), PriceAt(c.tickUpper);
    PriceRange(c.tickLower);
    PriceRange(c.tickUpper);
    LiquidityMath.DepositWithinOffer(c.desiredA, c.desiredB, lower, upper, s.pool.sqrtPrice);
  }

  lemma RemoveKeepsValid(s: State, c: Call)
    requires Valid(s) && c.RemoveLiquidity? && DoRemove(s, c).Done?
    ensures Valid(DoRemove(s, c).state)
  {
    hide PriceAt, TickAt, LiquidityMath.AmountsForLiquidity, TransferIfPositive, FeeGrowthInside, TruncDiv, HedgeRelease,
      Fees.PositiveHistory, Fees.IsValidFeeTier, Accrual, AccrualFits;
  }

  lemma SwapPrice(s: State, c: Call)
    requires Valid(s) && c.Swap? && c.amountIn > 0
    requires ComputeSwapStep(s.pool.sqrtPrice, TargetPrice(s.pool, c.zeroForOne), s.pool.liquidity,
                             c.amountIn, s.pool.dynamicFeeBps).Ok?
    ensures var step := ComputeSwapStep(s.pool.sqrtPrice, TargetPrice(s.pool, c.zeroForOne), s.pool.liquidity,
                             c.amountIn, s.pool.dynamicFeeBps).value;
      && Between(step.newPrice, s.pool.sqrtPrice, TargetPrice(s.pool, c.zeroForOne))
      && 0 < step.newPrice <= I128_MAX
      && 0 <= step.feePaid <= c.amountIn
      && 0 <= step.amountIn && 0 <= step.amountOut && step.amountIn + step.feePaid <= c.amountIn
  {
    hide ComputeSwapStep, TargetPrice, TickAt;
    StepBounds(s.pool.sqrtPrice, TargetPrice(s.pool, c.zeroForOne), s.pool.liquidity,
               c.amountIn, s.pool.dynamicFeeBps);
  }

  lemma SwapKeepsValid(s: State, now: nat, c: Call)
    requires Valid(s) && c.Swap? && DoSwap(s, now, c).Done?
    ensures Valid(DoSwap(s, now, c).state)
  {
    hide ComputeSwapStep, TargetPrice, TickAt, TransferIfPositive, Transfer, TruncDiv, MovedOutside, ValidPosition;
    SwapPrice(s, c);
  }

  lemma UpdateKeepsValid(s: State, now: nat)
    requires Valid(s) && DoUpdateFee(s, now).Done?
    ensures Valid(DoUpdateFee(s, now).state)
  {
    hide Fees.DynamicFee, TickAt, ValidPosition;
    Fees.DynamicFeeWithinPremium(s.samples, now, s.pool.feeTier);
  }

  lemma ExecuteKeepsValid(s: State, now: nat, c: Call)
    requires Valid(s) && Execute(s, now, c).Done?
    ensures Valid(Execute(s, now, c).state)
  {
    hide Valid, DoAdd, DoRemove, DoCollect, DoSwap, DoUpdateFee;
    match c
    case AddLiquidity(_, _, _, _, _, _, _) => AddKeepsValid(s, now, c);
    case RemoveLiquidity(_, _, _, _, _) => RemoveKeepsValid(s, c);
    case CollectFees(_, _) => CollectKeepsValid(s, c);
    case Swap(_, _, _, _) => SwapKeepsValid(s, now, c);
    case UpdateDynamicFee => UpdateKeepsValid(s, now);
    case SetPaused(value) => PauseKeepsValid(s, value);
  }

  lemma PauseKeepsValid(s: State, value: bool)
    requires Valid(s)
    ensures Valid(s.(paused := value))
  {
    hide ValidPool, ValidPosition, Fees.PositiveHistory;
  }

  lemma CollectKeepsValid(s: State, c: Call)
    requires Valid(s) && c.CollectFees? && DoCollect(s, c).Done?
    ensures Valid(DoCollect(s, c).state)
  {
    hide TickAt, TransferIfPositive, FeeGrowthInside, TruncDiv, Fees.PositiveHistory, ValidPool, Accrual, AccrualFits;
  }

  /** One call; a call that fails leaves the state as it was. */
  function Step(s: State, now: nat, c: Call): (t: State)
    requires Valid(s)
    ensures Valid(t)
  {
    hide Valid, Execute;
    match Execute(s, now, c)
    case Done(t, _) =>
      ExecuteKeepsValid(s, now, c);
      t
    case Failed(_) => s
  }

  type TimedCall = Timed<Call>

  function Run(s: State, calls: seq<TimedCall>): (t: State)
    requires Valid(s)
    ensures Valid(t)
    decreases |calls|
  {
    hide Valid, Step;
    if calls == [] then s
    else
      var last := calls[|calls| - 1];
      Step(Run(s, calls[..|calls| - 1]), last.now, last.call)
  }

  // ---------------------------------------------------------------- what calls leave alone

  /** A swap moves the price, the tick, one growth and the volume, and nothing else of the pool. */
  lemma SwapLeavesPool(s: State, now: nat, c: Call)
    requires Valid(s) && c.Swap? && DoSwap(s, now, c).Done?
    ensures var p := DoSwap(s, now, c).state.pool;
      p == s.pool.(sqrtPrice := p.sqrtPrice, currentTick := p.currentTick, feeGrowthA := p.feeGrowthA,
                   feeGrowthB := p.feeGrowthB, totalVolume := p.totalVolume)
  {
    hide Valid, ComputeSwapStep, TargetPrice, TickAt, AccumulateFeeGrowth, MovedOutside, Transfer;
  }

  /** Collecting, pausing and the fee update leave all of the pool but its dynamic fee. */
  lemma QuietLeavesPool(s: State, now: nat, c: Call)
    requires Valid(s) && (c.CollectFees? || c.UpdateDynamicFee? || c.SetPaused?) && Execute(s, now, c).Done?
    ensures var p := Execute(s, now, c).state.pool; p == s.pool.(dynamicFeeBps := p.dynamicFeeBps)
  {
    hide Valid, Fees.DynamicFee, Accrued, TransferIfPositive;
  }
}
