/** Fees paid out against fees credited and charged, over whole runs. */
module FeePayouts {
  import opened Common
  import opened FixedPoint
  import opened TickMap
  import opened SwapMath
  import opened Amm
  import opened FeeBound
  import opened IlHedge
  import LiquidityMath
  import Fees
  import Tokens = Ledger

  function Owed(p: Position, isA: bool): int {
    if isA then p.owedA else p.owedB
  }

  function OwedMap(s: State, isA: bool): map<nat, int> {
    map id | id in s.positions :: Owed(s.positions[id], isA)
  }

  /** What all live positions are owed. */
  function TotalOwed(s: State, isA: bool): int {
    SumTo(OwedMap(s, isA), s.positionCount)
  }

  /** Fee tokens a call pays out. */
  function PaidOf(s: State, e: TimedCall, isA: bool): int
    requires Valid(s)
  {
    if e.call.CollectFees? && Execute(s, e.now, e.call).Done? then
      if isA then Execute(s, e.now, e.call).receipt.amountA else Execute(s, e.now, e.call).receipt.amountB
    else 0
  }

  /** Fee tokens lost with a position that is removed whole before they are collected. */
  function ForfeitedOf(s: State, e: TimedCall, isA: bool): int
    requires Valid(s)
  {
    if e.call.RemoveLiquidity? && Execute(s, e.now, e.call).Done?
       && e.call.liquidity == s.positions[e.call.positionId].liquidity then
      var p := s.positions[e.call.positionId];
      Owed(p, isA) + Accrual(p.liquidity, InsideNow(s, p, isA), InsideLast(p, isA))
    else 0
  }

  function PaidOut(s: State, calls: seq<TimedCall>, isA: bool): int
    requires Valid(s)
    decreases |calls|
  {
    hide Valid, Run, PaidOf;
    if calls == [] then 0
    else
      var last, front := calls[|calls| - 1], calls[..|calls| - 1];
      PaidOut(s, front, isA) + PaidOf(Run(s, front), last, isA)
  }

  function Forfeited(s: State, calls: seq<TimedCall>, isA: bool): int
    requires Valid(s)
    decreases |calls|
  {
    hide Valid, Run, ForfeitedOf;
    if calls == [] then 0
    else
      var last, front := calls[|calls| - 1], calls[..|calls| - 1];
      Forfeited(s, front, isA) + ForfeitedOf(Run(s, front), last, isA)
  }

  predicate NothingNegative(s: State, isA: bool) {
    forall id :: id in s.positions ==> Owed(s.positions[id], isA) >= 0
  }

  lemma AccrualNonNegative(liquidity: int, now: int, last: int)
    requires liquidity > 0
    ensures Accrual(liquidity, now, last) >= 0
  {
    hide TruncDiv;
    if now > last {
      MulNonNegative(liquidity, now - last);
    }
  }

  /** Collecting pays the position's owner exactly what was owed and what has accrued since, and leaves
      nothing owed. */
  lemma CollectPaysAll(s: State, e: TimedCall, isA: bool)
    requires Valid(s) && NothingNegative(s, isA) && e.call.CollectFees? && Execute(s, e.now, e.call).Done?
    ensures var t, id := Step(s, e.now, e.call), e.call.positionId;
      && id in s.positions && id in t.positions && t.positionCount == s.positionCount
      && PaidOf(s, e, isA) == Owed(s.positions[id], isA) + CreditOf(s, e, isA)
      && PaidOf(s, e, isA) >= 0
      && Owed(t.positions[id], isA) == 0
      && (forall i :: i != id ==> (i in t.positions <==> i in s.positions))
      && (forall i :: i != id && i in s.positions ==> t.positions[i] == s.positions[i])
  {
    hide FeeGrowthInside, InsideNow, Accrual, AccrualFits, Fees.PositiveHistory, ValidPool, Tokens.TransferIfPositive;
    var p := s.positions[e.call.positionId];
    AccrualNonNegative(p.liquidity, InsideNow(s, p, isA), InsideLast(p, isA));
  }

  /** Removing part of a position credits what has accrued and keeps it owed; removing the whole
      forfeits it. */
  lemma RemoveKeepsOwed(s: State, e: TimedCall, isA: bool)
    requires Valid(s) && NothingNegative(s, isA) && e.call.RemoveLiquidity? && Execute(s, e.now, e.call).Done?
    ensures var t, id := Step(s, e.now, e.call), e.call.positionId;
      && id in s.positions && t.positionCount == s.positionCount
      && CreditOf(s, e, isA) >= 0
      && (if id in t.positions then Owed(t.positions[id], isA) else 0) + ForfeitedOf(s, e, isA)
         == Owed(s.positions[id], isA) + CreditOf(s, e, isA)
      && (forall i :: i != id ==> (i in t.positions <==> i in s.positions))
      && (forall i :: i != id && i in s.positions ==> t.positions[i] == s.positions[i])
  {
    hide FeeGrowthInside, InsideNow, Accrual, AccrualFits, Fees.PositiveHistory, ValidPool, Tokens.TransferIfPositive,
      PriceAt, LiquidityMath.AmountsForLiquidity, HedgeRelease, Without, Deactivate;
    var p := s.positions[e.call.positionId];
    AccrualNonNegative(p.liquidity, InsideNow(s, p, isA), InsideLast(p, isA));
  }

  lemma AddOwesNothing(s: State, e: TimedCall, isA: bool)
    requires Valid(s) && e.call.AddLiquidity? && Execute(s, e.now, e.call).Done?
    ensures var t, id := Step(s, e.now, e.call), s.positionCount + 1;
      && t.positionCount == id && id !in s.positions && t.positions == s.positions[id := t.positions[id]]
      && Owed(t.positions[id], isA) == 0
  {
    hide PriceAt, LiquidityMath.AmountsForLiquidity, LiquidityMath.LiquidityFromAmounts, Hedged, ValidPool,
      Tokens.TransferIfPositive, FeeGrowthInside, Fees.PositiveHistory;
  }

  /** The account of one call. */
  predicate Settles(s: State, e: TimedCall, isA: bool)
    requires Valid(s)
  {
    var t := Step(s, e.now, e.call);
    && TotalOwed(t, isA) + PaidOf(s, e, isA) + ForfeitedOf(s, e, isA) == TotalOwed(s, isA) + CreditOf(s, e, isA)
    && NothingNegative(t, isA)
    && PaidOf(s, e, isA) >= 0 && ForfeitedOf(s, e, isA) >= 0
  }

  lemma CollectSettles(s: State, e: TimedCall, isA: bool)
    requires Valid(s) && NothingNegative(s, isA) && e.call.CollectFees? && Execute(s, e.now, e.call).Done?
    ensures Settles(s, e, isA)
  {
    hide ValidPool, Execute, Step, PaidOf, CreditOf, Owed, Fees.PositiveHistory;
    var t, id := Step(s, e.now, e.call), e.call.positionId;
    CollectPaysAll(s, e, isA);
    SumChangesAt(OwedMap(s, isA), OwedMap(t, isA), id, s.positionCount);
  }

  lemma RemoveSettles(s: State, e: TimedCall, isA: bool)
    requires Valid(s) && NothingNegative(s, isA) && e.call.RemoveLiquidity? && Execute(s, e.now, e.call).Done?
    ensures Settles(s, e, isA)
  {
    hide ValidPool, Execute, Step, CreditOf, Owed, Fees.PositiveHistory, Accrual;
    var t, id := Step(s, e.now, e.call), e.call.positionId;
    RemoveKeepsOwed(s, e, isA);
    var p := s.positions[id];
    AccrualNonNegative(p.liquidity, InsideNow(s, p, isA), InsideLast(p, isA));
    SumChangesAt(OwedMap(s, isA), OwedMap(t, isA), id, s.positionCount);
    if id in t.positions {
      StillOwed(s, e, isA);
    }
  }

  lemma StillOwed(s: State, e: TimedCall, isA: bool)
    requires Valid(s) && NothingNegative(s, isA) && e.call.RemoveLiquidity? && Execute(s, e.now, e.call).Done?
    requires e.call.positionId in Step(s, e.now, e.call).positions
    ensures Owed(Step(s, e.now, e.call).positions[e.call.positionId], isA) >= 0
  {
    hide FeeGrowthInside, InsideNow, Accrual, AccrualFits, Fees.PositiveHistory, ValidPool, Tokens.TransferIfPositive,
      PriceAt, LiquidityMath.AmountsForLiquidity, HedgeRelease, Without, Deactivate;
    var p := s.positions[e.call.positionId];
    AccrualNonNegative(p.liquidity, InsideNow(s, p, isA), InsideLast(p, isA));
  }

  lemma AddSettles(s: State, e: TimedCall, isA: bool)
    requires Valid(s) && NothingNegative(s, isA) && e.call.AddLiquidity? && Execute(s, e.now, e.call).Done?
    ensures Settles(s, e, isA)
  {
    hide ValidPool, Execute, Step, Owed, Fees.PositiveHistory;
    var t := Step(s, e.now, e.call);
    AddOwesNothing(s, e, isA);
    SumSame(OwedMap(s, isA), OwedMap(t, isA), s.positionCount);
  }

  lemma OthersSettle(s: State, e: TimedCall, isA: bool)
    requires Valid(s) && NothingNegative(s, isA)
    requires e.call.Swap? || e.call.UpdateDynamicFee? || e.call.SetPaused? || Execute(s, e.now, e.call).Failed?
    ensures Settles(s, e, isA)
  {
    hide Valid, DoAdd, DoRemove, DoCollect;
    if Execute(s, e.now, e.call).Done? {
      CoveredSwap(s, e);
    }
    hide Execute;
  }

  lemma StepSettles(s: State, e: TimedCall, isA: bool)
    requires Valid(s) && NothingNegative(s, isA)
    ensures Settles(s, e, isA)
  {
    hide Valid, Execute, Settles, NothingNegative;
    if Execute(s, e.now, e.call).Failed? {
      OthersSettle(s, e, isA);
    } else {
      match e.call
      case AddLiquidity(_, _, _, _, _, _, _) => AddSettles(s, e, isA);
      case RemoveLiquidity(_, _, _, _, _) => RemoveSettles(s, e, isA);
      case CollectFees(_, _) => CollectSettles(s, e, isA);
      case Swap(_, _, _, _) => OthersSettle(s, e, isA);
      case UpdateDynamicFee => OthersSettle(s, e, isA);
      case SetPaused(_) => OthersSettle(s, e, isA);
    }
  }

  /** Over any run, fees paid out, forfeited and still owed are the fees credited and owed before. */
  lemma {:induction false} RunSettles(s: State, calls: seq<TimedCall>, isA: bool)
    requires Valid(s) && NothingNegative(s, isA)
    ensures TotalOwed(Run(s, calls), isA) + PaidOut(s, calls, isA) + Forfeited(s, calls, isA)
         == TotalOwed(s, isA) + Credited(s, calls, isA)
    ensures NothingNegative(Run(s, calls), isA)
    ensures PaidOut(s, calls, isA) >= 0 && Forfeited(s, calls, isA) >= 0
    decreases |calls|
  {
    hide Valid, TotalOwed, NothingNegative, Step, PaidOf, ForfeitedOf, CreditOf;
    if calls != [] {
      var last, front := calls[|calls| - 1], calls[..|calls| - 1];
      RunSettles(s, front, isA);
      StepSettles(Run(s, front), last, isA);
    }
  }

  lemma OwedNonNegative(s: State, isA: bool)
    requires NothingNegative(s, isA)
    ensures TotalOwed(s, isA) >= 0
  {
    SumAtLeast(OwedMap(s, isA), 0, s.positionCount);
  }

  lemma NewPoolOwesNothing(feeTier: nat, initialPrice: int, tokensA: Tokens.Balances, tokensB: Tokens.Balances, isA: bool)
    requires CreatePool(feeTier, initialPrice, tokensA, tokensB).Some?
    ensures var s := CreatePool(feeTier, initialPrice, tokensA, tokensB).value;
      Valid(s) && NothingNegative(s, isA) && TotalOwed(s, isA) == 0
  {
    hide TickAt;
  }

  /** From pool creation on, fees paid out, forfeited and still owed add up to the fees credited; and
      while the current tick stays inside every live position's range, the fees ever paid out never
      exceed the fees ever charged. */
  lemma PayoutsAreBounded(
    feeTier: nat, initialPrice: int, tokensA: Tokens.Balances, tokensB: Tokens.Balances,
    calls: seq<TimedCall>, isA: bool)
    requires CreatePool(feeTier, initialPrice, tokensA, tokensB).Some?
    ensures var s := CreatePool(feeTier, initialPrice, tokensA, tokensB).value;
      && PaidOut(s, calls, isA) + Forfeited(s, calls, isA) + TotalOwed(Run(s, calls), isA) == Credited(s, calls, isA)
      && (AlwaysCovered(s, calls) ==> PaidOut(s, calls, isA) <= Charged(s, calls, isA))
  {
    hide CreatePool, Valid, Run, PaidOut, Forfeited, TotalOwed, Credited, Charged, AlwaysCovered, NothingNegative;
    NewPoolOwesNothing(feeTier, initialPrice, tokensA, tokensB, isA);
    var s := CreatePool(feeTier, initialPrice, tokensA, tokensB).value;
    RunSettles(s, calls, isA);
    OwedNonNegative(Run(s, calls), isA);
    if AlwaysCovered(s, calls) {
      FeesAreBounded(feeTier, initialPrice, tokensA, tokensB, calls, isA);
    }
  }
}
