/** Token amounts of a position and the liquidity bought by a deposit. */
module LiquidityMath {
  import opened Common
  import opened FixedPoint

  /** The current price moved into the position's range. */
  function Clamp(current: int, lower: int, upper: int): int {
    Min(Max(current, lower), upper)
  }

  function AmountA(liquidity: int, upper: int, clamped: int): int {
    if upper > clamped then
      var step1 := TruncDiv(SatMul(liquidity, upper - clamped), Max(upper, 1));
      TruncDiv(SatMul(step1, Q64), Max(clamped, 1))
    else
      0
  }

  function AmountB(liquidity: int, lower: int, clamped: int): Checked<int> {
    if clamped > lower then
      if Fits(liquidity * (clamped - lower)) then
        Ok(TruncDiv(liquidity * (clamped - lower), Q64))
      else
        Overflow
    else
      Ok(0)
  }

  function AmountsForLiquidity(liquidity: int, lower: int, upper: int, current: int): Checked<(int, int)> {
    var clamped := Clamp(current, lower, upper);
    match AmountB(liquidity, lower, clamped)
    case Overflow => Overflow
    case Ok(b) => Ok((AmountA(liquidity, upper, clamped), b))
  }

  function LiquidityOfA(amountA: int, upper: int, clamped: int): int {
    if upper > clamped then
      var step1 := TruncDiv(SatMul(amountA, upper), Q64);
      TruncDiv(SatMul(step1, clamped), upper - clamped)
    else
      I128_MAX
  }

  function LiquidityOfB(amountB: int, lower: int, clamped: int): Checked<int> {
    if clamped > lower then
      if Fits(amountB * Q64) then
        Ok(TruncDiv(amountB * Q64, Max(clamped - lower, 1)))
      else
        Overflow
    else
      Ok(I128_MAX)
  }

  function LiquidityFromAmounts(amountA: int, amountB: int, lower: int, upper: int, current: int): Checked<int> {
    var clamped := Clamp(current, lower, upper);
    match LiquidityOfB(amountB, lower, clamped)
    case Overflow => Overflow
    case Ok(b) => Ok(Max(Min(LiquidityOfA(amountA, upper, clamped), b), 0))
  }

  // ---------------------------------------------------------------- token A

  /** Liquidity the offer of token A can pay for: none of the two saturating products of the
      withdrawal formula saturates for it. */
  ghost predicate PaidByA(liquidity: int, amountA: int, upper: int, clamped: int) {
    upper > clamped ==> 0 <= liquidity <= Max(LiquidityOfA(amountA, upper, clamped), 0)
  }

  /** The withdrawal formula for token A without saturation. */
  function ExactA(liquidity: int, diff: int, upper: int, clamped: int): int
    requires upper > 0 && clamped > 0
  {
    liquidity * diff / upper * Q64 / clamped
  }

  /** What the offer's two floors leave: the credit s pays s * clamped / diff liquidity. */
  lemma OfferCredit(liquidity: int, amountA: int, upper: int, clamped: int) returns (s: int)
    requires upper > clamped >= 0 && amountA >= 0
    requires 0 <= liquidity <= LiquidityOfA(amountA, upper, clamped)
    ensures s >= 0
    ensures s * Q64 <= amountA * upper && s * Q64 <= I128_MAX
    ensures liquidity * (upper - clamped) <= s * clamped
    ensures liquidity * (upper - clamped) <= I128_MAX
  {
    hide SatMul, TruncDiv;
    var p := SatMul(amountA, upper);
    s := TruncDiv(p, Q64);
    DivBounds(p, Q64);
    DivAtLeast(SatMul(s, clamped), upper - clamped, liquidity);
  }

  lemma StepWithinCredit(liquidity: int, diff: int, upper: int, clamped: int, s: int)
    requires upper > 0 && 0 <= clamped <= upper && s >= 0 && liquidity >= 0 && diff >= 0
    requires liquidity * diff <= s * clamped
    ensures var t := liquidity * diff / upper;
      0 <= t <= s && t * upper <= s * clamped && t * Q64 <= s * Q64
  {
    var t := liquidity * diff / upper;
    assert liquidity * diff >= 0;
    DivBounds(liquidity * diff, upper);
    DivNonNegative(liquidity * diff, upper);
    if t > s {
      MulMonotone(s + 1, t, upper);
      MulMonotone(clamped, upper, s);
      assert false;
    }
  }

  /** A chain of floors that starts below the credit of the offer ends below the offer. */
  lemma WithinOffer(t: int, s: int, amountA: int, upper: int, clamped: int)
    requires upper > 0 && clamped > 0 && t >= 0
    requires t * upper <= s * clamped && s * Q64 <= amountA * upper
    ensures 0 <= t * Q64 / clamped <= amountA
  {
    DivNonNegative(t * Q64, clamped);
    if t * Q64 / clamped > amountA {
      DivBounds(t * Q64, clamped);
      MulMonotone(amountA + 1, t * Q64 / clamped, clamped);
      Cancel(t, s, amountA, upper, clamped);
    }
  }

  lemma Cancel(t: int, s: int, amountA: int, upper: int, clamped: int)
    requires upper > 0 && clamped > 0
    requires t * upper <= s * clamped && s * Q64 <= amountA * upper
    ensures t * Q64 <= amountA * clamped
  {
    var x, y := t * Q64, amountA * clamped;
    assert x * upper == (t * upper) * Q64;
    MulMonotone(t * upper, s * clamped, Q64);
    assert (s * clamped) * Q64 == (s * Q64) * clamped;
    MulMonotone(s * Q64, amountA * upper, clamped);
    assert (amountA * upper) * clamped == y * upper;
    if x > y {
      MulMonotone(y + 1, x, upper);
    }
  }

  lemma PositiveOffer(liquidity: int, amountA: int, upper: int, clamped: int)
    requires upper > clamped > 0 && amountA >= 0
    requires 0 <= liquidity <= LiquidityOfA(amountA, upper, clamped)
    ensures AmountA(liquidity, upper, clamped) == ExactA(liquidity, upper - clamped, upper, clamped)
    ensures 0 <= AmountA(liquidity, upper, clamped) <= amountA
  {
    hide SatMul, TruncDiv, LiquidityOfA;
    var s := OfferCredit(liquidity, amountA, upper, clamped);
    var diff := upper - clamped;
    StepWithinCredit(liquidity, diff, upper, clamped, s);
    MulNonNegative(liquidity, diff);
    var t := liquidity * diff / upper;
    WithinOffer(t, s, amountA, upper, clamped);
    assert SatMul(liquidity, diff) == liquidity * diff;
    assert SatMul(t, Q64) == t * Q64;
  }

  lemma ZeroPrice(liquidity: int, amountA: int, upper: int)
    requires upper > 0 && amountA >= 0
    requires 0 <= liquidity <= LiquidityOfA(amountA, upper, 0)
    ensures liquidity == 0
  {
    hide SatMul, TruncDiv;
    var step1 := TruncDiv(SatMul(amountA, upper), Q64);
    assert SatMul(step1, 0) == 0;
    DivNonNegative(0, upper);
  }

  lemma NoCreditFromNegative(amountA: int, upper: int, clamped: int)
    requires upper > clamped >= 0 && amountA < 0
    ensures LiquidityOfA(amountA, upper, clamped) <= 0
  {
    hide SatMul, TruncDiv;
  }

  lemma AmountAOfNothing(upper: int, clamped: int)
    requires clamped >= 0 && upper >= 0
    ensures AmountA(0, upper, clamped) == 0
  {
    hide SatMul, TruncDiv;
    if upper > clamped {
      assert SatMul(0, upper - clamped) == 0;
      DivNonNegative(0, upper);
      assert SatMul(0, Q64) == 0;
      DivNonNegative(0, Max(clamped, 1));
    }
  }

  /** Token A taken for a liquidity the offer pays for: never more than offered, and the same as
      without saturation. */
  lemma AmountAWithinOffer(liquidity: int, amountA: int, upper: int, clamped: int)
    requires clamped >= 0 && upper >= 0
    requires PaidByA(liquidity, amountA, upper, clamped)
    ensures 0 <= AmountA(liquidity, upper, clamped) <= Max(amountA, 0)
    ensures upper > clamped > 0 && amountA >= 0 ==>
      AmountA(liquidity, upper, clamped) == ExactA(liquidity, upper - clamped, upper, clamped)
    ensures upper > clamped && (clamped == 0 || amountA < 0) ==> liquidity == 0
  {
    hide AmountA, LiquidityOfA, ExactA;
    if upper > clamped {
      if amountA < 0 {
        NoCreditFromNegative(amountA, upper, clamped);
        AmountAOfNothing(upper, clamped);
      } else if LiquidityOfA(amountA, upper, clamped) < 0 {
        NonNegativeCredit(amountA, upper, clamped);
      } else if clamped == 0 {
        ZeroPrice(liquidity, amountA, upper);
        AmountAOfNothing(upper, clamped);
      } else {
        PositiveOffer(liquidity, amountA, upper, clamped);
      }
    } else {
      NothingAbove(liquidity, upper, clamped);
    }
  }

  lemma NonNegativeCredit(amountA: int, upper: int, clamped: int)
    requires upper > clamped >= 0 && amountA >= 0
    ensures LiquidityOfA(amountA, upper, clamped) >= 0
  {
    hide SatMul, TruncDiv;
  }

  lemma NothingAbove(liquidity: int, upper: int, clamped: int)
    requires upper <= clamped
    ensures AmountA(liquidity, upper, clamped) == 0
  {
  }

  // ---------------------------------------------------------------- token B

  /** Liquidity the offer of token B can pay for: its product with the price difference neither
      overflows nor needs more than the offer. */
  lemma AmountBWithinOffer(liquidity: int, amountB: int, lower: int, clamped: int)
    requires LiquidityOfB(amountB, lower, clamped).Ok?
    requires clamped > lower ==> 0 <= liquidity <= Max(LiquidityOfB(amountB, lower, clamped).value, 0)
    ensures AmountB(liquidity, lower, clamped).Ok?
    ensures 0 <= AmountB(liquidity, lower, clamped).value <= Max(amountB, 0)
    ensures clamped > lower ==>
      AmountB(liquidity, lower, clamped).value == liquidity * (clamped - lower) / Q64
  {
    hide TruncDiv;
    if clamped > lower {
      var d := clamped - lower;
      MulNonNegative(liquidity, d);
      if amountB <= 0 {
        assert liquidity == 0;
        assert liquidity * d == 0;
      } else {
        DivAtLeast(amountB * Q64, d, liquidity);
        assert liquidity * d <= amountB * Q64;
        DivMonotone(liquidity * d, amountB * Q64, Q64);
        DivUnique(amountB * Q64, Q64, amountB);
      }
      DivNonNegative(liquidity * d, Q64);
    }
  }

  // ---------------------------------------------------------------- deposits

  /** Whatever is offered, in range or not, with or without saturation, the deposit that the
      offer's liquidity asks for does not abort and takes at most the offer. */
  lemma DepositWithinOffer(amountA: int, amountB: int, lower: int, upper: int, current: int)
    requires lower >= 0 && upper >= 0
    requires LiquidityFromAmounts(amountA, amountB, lower, upper, current).Ok?
    ensures var l := LiquidityFromAmounts(amountA, amountB, lower, upper, current).value;
      var taken := AmountsForLiquidity(l, lower, upper, current);
      && l >= 0
      && taken.Ok?
      && 0 <= taken.value.0 <= Max(amountA, 0)
      && 0 <= taken.value.1 <= Max(amountB, 0)
  {
    hide LiquidityOfA, LiquidityOfB, AmountA, AmountB;
    var l := LiquidityFromAmounts(amountA, amountB, lower, upper, current).value;
    OfferPaysFor(l, amountA, amountB, lower, upper, current);
    AmountAWithinOffer(l, amountA, upper, Clamp(current, lower, upper));
    AmountBWithinOffer(l, amountB, lower, Clamp(current, lower, upper));
  }

  lemma OfferPaysFor(k: int, amountA: int, amountB: int, lower: int, upper: int, current: int)
    requires LiquidityFromAmounts(amountA, amountB, lower, upper, current).Ok?
    requires 0 <= k <= LiquidityFromAmounts(amountA, amountB, lower, upper, current).value
    ensures var c := Clamp(current, lower, upper);
      && PaidByA(k, amountA, upper, c)
      && LiquidityOfB(amountB, lower, c).Ok?
      && (c > lower ==> 0 <= k <= Max(LiquidityOfB(amountB, lower, c).value, 0))
  {
    hide LiquidityOfA, LiquidityOfB;
  }

  /** The liquidity bought is the largest one the offer pays for: in each token that the range
      needs, the credit left by the two floors of that token covers it, and no more is covered. */
  lemma LiquidityIsLargest(k: int, amountA: int, amountB: int, lower: int, upper: int, current: int)
    requires lower >= 0 && upper >= 0 && amountA >= 0 && amountB >= 0
    requires LiquidityFromAmounts(amountA, amountB, lower, upper, current).Ok?
    requires 0 <= k <= I128_MAX
    ensures var c := Clamp(current, lower, upper);
      k <= LiquidityFromAmounts(amountA, amountB, lower, upper, current).value <==>
        && (upper > c ==> k * (upper - c) <= SatMul(SatMul(amountA, upper) / Q64, c))
        && (c > lower ==> k * (c - lower) <= amountB * Q64)
  {
    hide SatMul, TruncDiv;
    var c := Clamp(current, lower, upper);
    if upper > c {
      var s := SatMul(amountA, upper) / Q64;
      DivNonNegative(SatMul(amountA, upper), Q64);
      DivNonNegative(SatMul(s, c), upper - c);
      DivAtLeast(SatMul(s, c), upper - c, k);
      assert LiquidityOfA(amountA, upper, c) == SatMul(s, c) / (upper - c);
    }
    if c > lower {
      DivNonNegative(amountB * Q64, c - lower);
      DivAtLeast(amountB * Q64, c - lower, k);
    }
  }

  // ---------------------------------------------------------------- withdrawals

  /** Total paid out when the pieces are withdrawn one after the other at one price. */
  function Withdrawn(pieces: seq<int>, lower: int, upper: int, current: int): Checked<(int, int)> {
    if pieces == [] then Ok((0, 0))
    else
      var front, last := pieces[..|pieces| - 1], pieces[|pieces| - 1];
      match Withdrawn(front, lower, upper, current)
      case Overflow => Overflow
      case Ok(before) =>
        match AmountsForLiquidity(last, lower, upper, current)
        case Overflow => Overflow
        case Ok(paid) => Ok((before.0 + paid.0, before.1 + paid.1))
  }

  lemma ExactASplits(x: int, y: int, diff: int, upper: int, clamped: int)
    requires x >= 0 && y >= 0 && diff >= 0 && upper > 0 && clamped > 0
    ensures ExactA(x, diff, upper, clamped) + ExactA(y, diff, upper, clamped) <= ExactA(x + y, diff, upper, clamped)
  {
    var p, q, r := x * diff / upper, y * diff / upper, (x + y) * diff / upper;
    assert (x + y) * diff == x * diff + y * diff;
    DivSuperadditive(x * diff, y * diff, upper);
    assert p * Q64 + q * Q64 == (p + q) * Q64;
    DivSuperadditive(p * Q64, q * Q64, clamped);
    DivMonotone((p + q) * Q64, r * Q64, clamped);
  }

  lemma AmountASplits(x: int, y: int, amountA: int, upper: int, clamped: int)
    requires x >= 0 && y >= 0 && clamped >= 0 && upper >= 0
    requires PaidByA(x + y, amountA, upper, clamped)
    ensures AmountA(x, upper, clamped) + AmountA(y, upper, clamped) <= AmountA(x + y, upper, clamped)
  {
    hide AmountA, LiquidityOfA, ExactA;
    AmountAWithinOffer(x, amountA, upper, clamped);
    AmountAWithinOffer(y, amountA, upper, clamped);
    AmountAWithinOffer(x + y, amountA, upper, clamped);
    if upper > clamped {
      if clamped > 0 && amountA >= 0 {
        ExactASplits(x, y, upper - clamped, upper, clamped);
      } else {
        assert x == 0 && y == 0;
        AmountAOfNothing(upper, clamped);
      }
    } else {
      NothingAbove(x, upper, clamped);
      NothingAbove(y, upper, clamped);
      NothingAbove(x + y, upper, clamped);
    }
  }

  lemma AmountBSplits(x: int, y: int, amountB: int, lower: int, clamped: int)
    requires x >= 0 && y >= 0 && LiquidityOfB(amountB, lower, clamped).Ok?
    requires clamped > lower ==> x + y <= Max(LiquidityOfB(amountB, lower, clamped).value, 0)
    ensures AmountB(x, lower, clamped).Ok? && AmountB(y, lower, clamped).Ok? && AmountB(x + y, lower, clamped).Ok?
    ensures AmountB(x, lower, clamped).value + AmountB(y, lower, clamped).value <= AmountB(x + y, lower, clamped).value
  {
    hide AmountB, LiquidityOfB;
    AmountBWithinOffer(x, amountB, lower, clamped);
    AmountBWithinOffer(y, amountB, lower, clamped);
    AmountBWithinOffer(x + y, amountB, lower, clamped);
    if clamped > lower {
      assert (x + y) * (clamped - lower) == x * (clamped - lower) + y * (clamped - lower);
      DivSuperadditive(x * (clamped - lower), y * (clamped - lower), Q64);
    } else {
      NothingBelow(x, lower, clamped);
      NothingBelow(y, lower, clamped);
      NothingBelow(x + y, lower, clamped);
    }
  }

  lemma NothingBelow(liquidity: int, lower: int, clamped: int)
    requires clamped <= lower
    ensures AmountB(liquidity, lower, clamped) == Ok(0)
  {
  }

  /** Cutting a withdrawal into pieces never pays more than withdrawing their sum at once. */
  lemma {:induction false} PiecesWithinWhole(
    pieces: seq<int>, amountA: int, amountB: int, lower: int, upper: int, current: int)
    requires lower >= 0 && upper >= 0
    requires LiquidityFromAmounts(amountA, amountB, lower, upper, current).Ok?
    requires forall i :: 0 <= i < |pieces| ==> pieces[i] >= 0
    requires 0 <= Sum(pieces) <= LiquidityFromAmounts(amountA, amountB, lower, upper, current).value
    ensures var paid, whole := Withdrawn(pieces, lower, upper, current),
                               AmountsForLiquidity(Sum(pieces), lower, upper, current);
      paid.Ok? && whole.Ok? && paid.value.0 <= whole.value.0 && paid.value.1 <= whole.value.1
    decreases |pieces|
  {
    hide LiquidityOfA, LiquidityOfB, LiquidityFromAmounts, AmountA, AmountB;
    var c := Clamp(current, lower, upper);
    OfferPaysFor(Sum(pieces), amountA, amountB, lower, upper, current);
    AmountAWithinOffer(Sum(pieces), amountA, upper, c);
    AmountBWithinOffer(Sum(pieces), amountB, lower, c);
    if pieces != [] {
      var front, last := pieces[..|pieces| - 1], pieces[|pieces| - 1];
      SumNonNegative(front);
      PiecesWithinWhole(front, amountA, amountB, lower, upper, current);
      AmountASplits(Sum(front), last, amountA, upper, c);
      AmountBSplits(Sum(front), last, amountB, lower, c);
    }
  }

  lemma {:induction false} SumNonNegative(pieces: seq<int>)
    requires forall i :: 0 <= i < |pieces| ==> pieces[i] >= 0
    ensures Sum(pieces) >= 0
  {
    if pieces != [] {
      SumNonNegative(pieces[..|pieces| - 1]);
    }
  }

  /** A deposit withdrawn at the price it was made at, in any pieces, returns at most the offer. */
  lemma WithdrawalWithinDeposit(
    pieces: seq<int>, amountA: int, amountB: int, lower: int, upper: int, current: int)
    requires lower >= 0 && upper >= 0
    requires LiquidityFromAmounts(amountA, amountB, lower, upper, current).Ok?
    requires forall i :: 0 <= i < |pieces| ==> pieces[i] >= 0
    requires Sum(pieces) <= LiquidityFromAmounts(amountA, amountB, lower, upper, current).value
    ensures var deposit := AmountsForLiquidity(
        LiquidityFromAmounts(amountA, amountB, lower, upper, current).value, lower, upper, current);
      var paid := Withdrawn(pieces, lower, upper, current);
      && paid.Ok? && deposit.Ok?
      && paid.value.0 <= deposit.value.0 <= Max(amountA, 0)
      && paid.value.1 <= deposit.value.1 <= Max(amountB, 0)
  {
    hide LiquidityOfA, LiquidityOfB, LiquidityFromAmounts, AmountA, AmountB;
    var l := LiquidityFromAmounts(amountA, amountB, lower, upper, current).value;
    var c := Clamp(current, lower, upper);
    SumNonNegative(pieces);
    DepositWithinOffer(amountA, amountB, lower, upper, current);
    PiecesWithinWhole(pieces, amountA, amountB, lower, upper, current);
    var left := l - Sum(pieces);
    OfferPaysFor(l, amountA, amountB, lower, upper, current);
    OfferPaysFor(left, amountA, amountB, lower, upper, current);
    AmountASplits(Sum(pieces), left, amountA, upper, c);
    AmountAWithinOffer(left, amountA, upper, c);
    AmountBSplits(Sum(pieces), left, amountB, lower, c);
    AmountBWithinOffer(left, amountB, lower, c);
  }
}
