/** What a position pays back over a whole run: withdrawals made at the price of the deposit, in any
    pieces and among any other calls, return at most the deposit besides the hedge releases. */
module Withdrawals {
  import opened Common
  import opened FixedPoint
  import opened TickMap
  import opened Amm
  import opened AmmEffects
  import FeeBound
  import AmmRuns
  import LiquidityMath
  import Fees
  import IlHedge
  import Tokens = Ledger

  /** The call withdraws from a position and goes through. */
  predicate Withdraws(s: State, e: TimedCall, id: nat): (b: bool)
    requires Valid(s)
    ensures b ==> e.call.RemoveLiquidity?
  {
    e.call.RemoveLiquidity? && e.call.positionId == id && Execute(s, e.now, e.call).Done?
  }

  /** What the call pays out of the position, besides the hedge release. */
  function PaidBack(s: State, e: TimedCall, id: nat, isA: bool): int
    requires Valid(s)
  {
    if Withdraws(s, e, id) then
      var r := Execute(s, e.now, e.call).receipt;
      if isA then r.amountA - r.hedgeA else r.amountB - r.hedgeB
    else 0
  }

  function TotalPaidBack(s: State, calls: seq<TimedCall>, id: nat, isA: bool): int
    requires Valid(s)
    decreases |calls|
  {
    hide Valid, Run, PaidBack;
    if calls == [] then 0
    else
      var last, front := calls[|calls| - 1], calls[..|calls| - 1];
      TotalPaidBack(s, front, id, isA) + PaidBack(Run(s, front), last, id, isA)
  }

  /** The liquidities withdrawn from the position, in order. */
  function Pieces(s: State, calls: seq<TimedCall>, id: nat): seq<int>
    requires Valid(s)
    decreases |calls|
  {
    hide Valid, Run, Withdraws;
    if calls == [] then []
    else
      var last, front := calls[|calls| - 1], calls[..|calls| - 1];
      Pieces(s, front, id) + (if Withdraws(Run(s, front), last, id) then [last.call.liquidity] else [])
  }

  /** Whenever the run withdraws from the position, the price is the given one. In between it may move. */
  predicate WithdrawnAt(s: State, calls: seq<TimedCall>, id: nat, price: int)
    requires Valid(s)
    decreases |calls|
  {
    hide Valid, Run, Withdraws;
    calls != [] ==>
      var last, front := calls[|calls| - 1], calls[..|calls| - 1];
      && WithdrawnAt(s, front, id, price)
      && (Withdraws(Run(s, front), last, id) ==> Run(s, front).pool.sqrtPrice == price)
  }

  // ---------------------------------------------------------------- sums over pieces

  lemma PiecesAppended(pieces: seq<int>, x: int, lower: int, upper: int, price: int)
    requires LiquidityMath.Withdrawn(pieces, lower, upper, price).Ok?
    requires LiquidityMath.AmountsForLiquidity(x, lower, upper, price).Ok?
    ensures var paid, more := LiquidityMath.Withdrawn(pieces, lower, upper, price).value,
                              LiquidityMath.AmountsForLiquidity(x, lower, upper, price).value;
      LiquidityMath.Withdrawn(pieces + [x], lower, upper, price) == Ok((paid.0 + more.0, paid.1 + more.1))
    ensures Sum(pieces + [x]) == Sum(pieces) + x
  {
    hide LiquidityMath.AmountsForLiquidity;
    assert (pieces + [x])[..|pieces|] == pieces;
  }

  // ---------------------------------------------------------------- one call

  /** The range of a stored position never changes; its liquidity changes only by its own withdrawals, and
      an id is never given out again. */
  lemma StepPosition(s: State, e: TimedCall, id: nat)
    requires Valid(s) && id <= s.positionCount
    ensures var t := Step(s, e.now, e.call);
      && id <= t.positionCount
      && (id !in s.positions ==> id !in t.positions)
      && (id in s.positions && !Withdraws(s, e, id) ==>
           && id in t.positions && t.positions[id].liquidity == s.positions[id].liquidity
           && t.positions[id].tickLower == s.positions[id].tickLower
           && t.positions[id].tickUpper == s.positions[id].tickUpper)
  {
    hide Valid, DoAdd, DoRemove, DoCollect, DoSwap, DoUpdateFee;
    var c := e.call;
    if Execute(s, e.now, c).Done? {
      if c.AddLiquidity? {
        AddKeepsOthers(s, e.now, c, id);
      } else if c.RemoveLiquidity? {
        FeeBound.CreditedPosition(s, e, true);
        RemoveEffect(s, c);
      } else if c.CollectFees? {
        CollectKeepsRange(s, c);
      } else if c.Swap? {
        AmmRuns.SwapKeepsPositions(s, e.now, c);
        SwapKeepsCount(s, e.now, c);
      } else {
        QuietKeepsPositions(s, e);
      }
    }
  }

  lemma AddKeepsOthers(s: State, now: nat, c: Call, id: nat)
    requires Valid(s) && c.AddLiquidity? && DoAdd(s, now, c).Done? && id <= s.positionCount
    ensures var t := DoAdd(s, now, c).state;
      && t.positionCount == s.positionCount + 1 == DoAdd(s, now, c).receipt.positionId
      && (id in t.positions <==> id in s.positions) && (id in s.positions ==> t.positions[id] == s.positions[id])
  {
    hide Valid, PriceAt, LiquidityMath.AmountsForLiquidity, LiquidityMath.LiquidityFromAmounts, Hedged, NewPosition,
      Activate, Tokens.TransferIfPositive;
  }

  lemma CollectKeepsRange(s: State, c: Call)
    requires Valid(s) && c.CollectFees? && DoCollect(s, c).Done?
    ensures var t, id := DoCollect(s, c).state, c.positionId;
      && t.positionCount == s.positionCount && id in s.positions && id in t.positions
      && t.positions == s.positions[id := t.positions[id]]
      && t.positions[id].liquidity == s.positions[id].liquidity
      && t.positions[id].tickLower == s.positions[id].tickLower && t.positions[id].tickUpper == s.positions[id].tickUpper
  {
    hide Valid, InsideNow, Accrual, AccrualFits, Tokens.TransferIfPositive;
  }

  lemma SwapKeepsCount(s: State, now: nat, c: Call)
    requires Valid(s) && c.Swap? && DoSwap(s, now, c).Done?
    ensures DoSwap(s, now, c).state.positionCount == s.positionCount
  {
    hide Valid, SwapMath.ComputeSwapStep, TargetPrice, TickAt, MovedPool, MovedOutside, AccumulateFeeGrowth,
      Tokens.Transfer;
  }

  lemma QuietKeepsPositions(s: State, e: TimedCall)
    requires Valid(s) && (e.call.UpdateDynamicFee? || e.call.SetPaused?) && Execute(s, e.now, e.call).Done?
    ensures var t := Step(s, e.now, e.call); t.positions == s.positions && t.positionCount == s.positionCount
  {
    hide Valid, Fees.DynamicFee;
  }

  /** A withdrawal from the position: its formula, what is left, and that the range stays. */
  lemma StepWithdraws(s: State, e: TimedCall, id: nat)
    requires Valid(s) && Withdraws(s, e, id)
    ensures id in s.positions
    ensures var p, t, l := s.positions[id], Step(s, e.now, e.call), e.call.liquidity;
      && Supported(p.tickLower) && Supported(p.tickUpper)
      && 0 < l <= p.liquidity
      && LiquidityMath.AmountsForLiquidity(l, PriceAt(p.tickLower), PriceAt(p.tickUpper), s.pool.sqrtPrice)
         == Ok((PaidBack(s, e, id, true), PaidBack(s, e, id, false)))
      && (id in t.positions <==> l < p.liquidity)
      && (id in t.positions ==>
           && t.positions[id].liquidity == p.liquidity - l
           && t.positions[id].tickLower == p.tickLower && t.positions[id].tickUpper == p.tickUpper)
  {
    hide DoAdd, DoRemove, DoCollect, DoSwap, DoUpdateFee, ValidPool, Fees.PositiveHistory, PriceAt,
      LiquidityMath.AmountsForLiquidity;
    RemoveEffect(s, e.call);
    FeeBound.CreditedPosition(s, e, true);
  }

  // ---------------------------------------------------------------- whole runs

  /** A position of a range and of liquidity l, after some pieces were taken from it and paid for. */
  predicate Accounts(
    t: State, pieces: seq<int>, paid: (int, int), id: nat, lower: int, upper: int, l: int, price: int)
    requires Supported(lower) && Supported(upper)
  {
    hide PriceAt;
    && id <= t.positionCount
    && (forall i :: 0 <= i < |pieces| ==> pieces[i] >= 0)
    && Sum(pieces) == l - Left(t, id)
    && Left(t, id) >= 0
    && (id in t.positions ==> t.positions[id].tickLower == lower && t.positions[id].tickUpper == upper)
    && LiquidityMath.Withdrawn(pieces, PriceAt(lower), PriceAt(upper), price) == Ok(paid)
  }

  /** Liquidity still in the position. */
  function Left(s: State, id: nat): int {
    if id in s.positions then s.positions[id].liquidity else 0
  }

  lemma AccountsWithdrawn(
    m: State, e: TimedCall, pieces: seq<int>, paid: (int, int), id: nat, lower: int, upper: int, l: int, price: int)
    requires Valid(m) && Supported(lower) && Supported(upper) && Accounts(m, pieces, paid, id, lower, upper, l, price)
    requires Withdraws(m, e, id) && m.pool.sqrtPrice == price
    ensures Accounts(Step(m, e.now, e.call), pieces + [e.call.liquidity],
              (paid.0 + PaidBack(m, e, id, true), paid.1 + PaidBack(m, e, id, false)), id, lower, upper, l, price)
  {
    hide Valid, Step, Withdraws, PaidBack, PriceAt, LiquidityMath.Withdrawn, LiquidityMath.AmountsForLiquidity,
      Sum;
    StepWithdraws(m, e, id);
    StepPosition(m, e, id);
    PiecesAppended(pieces, e.call.liquidity, PriceAt(lower), PriceAt(upper), price);
  }

  lemma AccountsKept(
    m: State, e: TimedCall, pieces: seq<int>, paid: (int, int), id: nat, lower: int, upper: int, l: int, price: int)
    requires Valid(m) && Supported(lower) && Supported(upper) && Accounts(m, pieces, paid, id, lower, upper, l, price)
    requires !Withdraws(m, e, id)
    ensures Accounts(Step(m, e.now, e.call), pieces, paid, id, lower, upper, l, price)
  {
    hide Valid, Step, Withdraws, PriceAt, LiquidityMath.Withdrawn, Sum;
    StepPosition(m, e, id);
  }

  lemma {:induction false} AccountsHold(
    s: State, calls: seq<TimedCall>, id: nat, lower: int, upper: int, l: int, price: int)
    requires Valid(s) && Supported(lower) && Supported(upper) && Accounts(s, [], (0, 0), id, lower, upper, l, price)
    requires WithdrawnAt(s, calls, id, price)
    ensures Accounts(Run(s, calls), Pieces(s, calls, id), PaidPair(s, calls, id), id, lower, upper, l, price)
    decreases |calls|
  {
    hide Valid, Accounts, Withdraws, PaidBack, Step;
    if calls != [] {
      var last, front := calls[|calls| - 1], calls[..|calls| - 1];
      AccountsHold(s, front, id, lower, upper, l, price);
      var m, pieces := Run(s, front), Pieces(s, front, id);
      if Withdraws(m, last, id) {
        AccountsWithdrawn(m, last, pieces, PaidPair(s, front, id), id, lower, upper, l, price);
      } else {
        NothingPaidBack(m, last, id);
        AccountsKept(m, last, pieces, PaidPair(s, front, id), id, lower, upper, l, price);
        assert pieces + [] == pieces;
      }
    }
  }

  function PaidPair(s: State, calls: seq<TimedCall>, id: nat): (int, int)
    requires Valid(s)
  {
    (TotalPaidBack(s, calls, id, true), TotalPaidBack(s, calls, id, false))
  }

  lemma NothingPaidBack(s: State, e: TimedCall, id: nat)
    requires Valid(s) && !Withdraws(s, e, id)
    ensures PaidBack(s, e, id, true) == PaidBack(s, e, id, false) == 0
  {
  }

  /** After a deposit, in any run whose withdrawals from its position are made at the price of the deposit,
      whatever else is called and wherever the price goes in between: they take at most the liquidity bought
      and pay, in each token, at most the deposit besides the hedge releases. */
  lemma WithdrawalsWithinDeposit(s: State, now: nat, add: Call, calls: seq<TimedCall>)
    requires Valid(s) && add.AddLiquidity? && DoAdd(s, now, add).Done?
    requires WithdrawnAt(Step(s, now, add), calls, s.positionCount + 1, s.pool.sqrtPrice)
    ensures var t, r, id := Step(s, now, add), DoAdd(s, now, add).receipt, s.positionCount + 1;
      && r.Added? && r.positionId == id
      && Sum(Pieces(t, calls, id)) == r.liquidity - Left(Run(t, calls), id) <= r.liquidity
      && TotalPaidBack(t, calls, id, true) <= r.amountA
      && TotalPaidBack(t, calls, id, false) <= r.amountB
  {
    hide Valid, DoAdd, Run, Pieces, TotalPaidBack, WithdrawnAt, PriceAt, LiquidityMath.Withdrawn,
      LiquidityMath.LiquidityFromAmounts, LiquidityMath.AmountsForLiquidity;
    var t, r, id := Step(s, now, add), DoAdd(s, now, add).receipt, s.positionCount + 1;
    AddAmounts(s, now, add);
    AddEffect(s, now, add);
    AddKeepsOthers(s, now, add, s.positionCount);
    BoughtByOffer(s, now, add);
    StartsWhole(t, id, add.tickLower, add.tickUpper, r.liquidity, s.pool.sqrtPrice);
    AccountsHold(t, calls, id, add.tickLower, add.tickUpper, r.liquidity, s.pool.sqrtPrice);
    PriceRange(add.tickLower);
    PriceRange(add.tickUpper);
    LiquidityMath.WithdrawalWithinDeposit(Pieces(t, calls, id), add.desiredA, add.desiredB,
      PriceAt(add.tickLower), PriceAt(add.tickUpper), s.pool.sqrtPrice);
  }

  lemma BoughtByOffer(s: State, now: nat, c: Call)
    requires Valid(s) && c.AddLiquidity? && DoAdd(s, now, c).Done?
    ensures Supported(c.tickLower) && Supported(c.tickUpper) && DoAdd(s, now, c).receipt.Added?
    ensures LiquidityMath.LiquidityFromAmounts(
              c.desiredA, c.desiredB, PriceAt(c.tickLower), PriceAt(c.tickUpper), s.pool.sqrtPrice)
         == Ok(DoAdd(s, now, c).receipt.liquidity)
  {
    hide Valid, PriceAt, LiquidityMath.AmountsForLiquidity, LiquidityMath.LiquidityFromAmounts, Hedged, NewPosition,
      Activate, Tokens.TransferIfPositive;
  }

  lemma StartsWhole(t: State, id: nat, lower: int, upper: int, l: int, price: int)
    requires Valid(t) && id in t.positions && id <= t.positionCount && t.positions[id].liquidity == l > 0
    requires Supported(lower) && Supported(upper)
    requires t.positions[id].tickLower == lower && t.positions[id].tickUpper == upper
    ensures Accounts(t, [], (0, 0), id, lower, upper, l, price)
  {
    hide Valid, PriceAt;
  }
}
