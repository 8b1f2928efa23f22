/** Impermanent-loss estimate of a position and the hedge reserve it funds. */
module IlHedge {
  import opened Common
  import opened FixedPoint
  import opened TickMap

  const HEDGE_THRESHOLD_BPS: int := 200
  const HEDGE_RATIO_BPS: int := 500
  const SCALE: int := 1_000_000

  /** Current over entry square-root price, scaled by SCALE. */
  function RootRatio(price: int, entry: int): int
    requires entry > 0
  {
    TruncDiv(SatMul(price, SCALE), entry)
  }

  /** 2 sqrt(r) / (1 + r) - 1 in basis points, from the scaled root of r. */
  function LossBps(root: int): int
  {
    var r := TruncDiv(SatMul(root, root), SCALE);
    var loss := TruncDiv(SatMul(2 * root, SCALE), Max(SCALE + r, 1)) - SCALE;
    TruncDiv(loss * 10_000, SCALE)
  }

  function MidTick(lower: int, upper: int): int {
    TruncDiv(lower + upper, 2)
  }

  /** The entry price is taken to be the price of the middle tick of the range. */
  function EstimateIlBps(lower: int, upper: int, price: int): int {
    var mid := MidTick(lower, upper);
    if !Supported(mid) then 0
    else
      PriceRange(mid);
      LossBps(RootRatio(price, PriceAt(mid)))
  }

  function HedgeReserve(ilBps: int, amountA: int, amountB: int): (int, int) {
    if (if ilBps < 0 then -ilBps else ilBps) < HEDGE_THRESHOLD_BPS then (0, 0)
    else (TruncDiv(amountA * HEDGE_RATIO_BPS, 10_000), TruncDiv(amountB * HEDGE_RATIO_BPS, 10_000))
  }

  function HedgeRelease(reserve: int, removed: int, total: int): int {
    if total == 0 then 0 else TruncDiv(reserve * removed, Max(total, 1))
  }

  // ---------------------------------------------------------------- the loss is a loss

  /** Integer form of the inequality of arithmetic and geometric means: with r the floor of
      root^2 / SCALE, the quotient 2 root SCALE / (SCALE + r) is at most SCALE. */
  lemma QuotientAtMostScale(root: int)
    requires root >= 0
    ensures 0 <= 2 * root * SCALE / (SCALE + root * root / SCALE) <= SCALE
  {
    var r := root * root / SCALE;
    DivBounds(root * root, SCALE);
    DivNonNegative(root * root, SCALE);
    var den := SCALE + r;
    var gap := root - SCALE;
    assert gap * gap == root * root - 2 * root * SCALE + SCALE * SCALE;
    assert gap * gap >= 0;
    assert 2 * root * SCALE < (SCALE + 1) * den;
    DivNonNegative(2 * root * SCALE, den);
    DivAtLeast(2 * root * SCALE, den, SCALE + 1);
  }

  /** The loss quotient stays within the scale also when the square of the root saturates. */
  lemma LossQuotient(root: int)
    requires 0 <= root <= 2 * MIN_PRICE
    ensures var r := TruncDiv(SatMul(root, root), SCALE);
      r >= 0 && 0 <= 2 * root * SCALE / (SCALE + r) <= SCALE
  {
    hide SatMul, TruncDiv;
    MulNonNegative(root, root);
    if Fits(root * root) {
      QuotientAtMostScale(root);
    } else {
      assert SatMul(root, root) == I128_MAX;
      DivUnique(I128_MAX, SCALE, I128_MAX / SCALE);
      DivUnique(2 * root * SCALE, SCALE + I128_MAX / SCALE, 0);
    }
  }

  lemma LossOfRoot(root: int)
    requires 0 <= root <= 2 * MIN_PRICE
    ensures -10_000 <= LossBps(root) <= 0
  {
    hide SatMul, TruncDiv;
    LossQuotient(root);
    var r := TruncDiv(SatMul(root, root), SCALE);
    assert SatMul(2 * root, SCALE) == 2 * root * SCALE;
    LossInBps(2 * root * SCALE / (SCALE + r) - SCALE);
  }

  lemma LossInBps(loss: int)
    requires -SCALE <= loss <= 0
    ensures -10_000 <= TruncDiv(loss * 10_000, SCALE) <= 0
  {
    DivNonNegative(-(loss * 10_000), SCALE);
  }

  /** The estimate is a loss of at most everything, for every range and every price. */
  lemma LossIsBounded(lower: int, upper: int, price: int)
    requires price >= 0
    ensures -10_000 <= EstimateIlBps(lower, upper, price) <= 0
  {
    hide LossBps, PriceAt, SatMul, TruncDiv, Table;
    var mid := MidTick(lower, upper);
    if Supported(mid) {
      PriceRange(mid);
      RootIsSmall(price, PriceAt(mid));
      LossOfRoot(RootRatio(price, PriceAt(mid)));
    }
  }

  lemma RootIsSmall(price: int, entry: int)
    requires price >= 0 && entry >= MIN_PRICE
    ensures 0 <= RootRatio(price, entry) <= 2 * MIN_PRICE
  {
    hide SatMul, TruncDiv;
    var p := SatMul(price, SCALE);
    assert 0 <= p <= I128_MAX;
    DivNonNegative(p, entry);
    if p / entry > 2 * MIN_PRICE {
      DivBounds(p, entry);
      MulMonotone(2 * MIN_PRICE, p / entry, entry);
      MulMonotone(MIN_PRICE, entry, 2 * MIN_PRICE);
    }
  }

  /** At the entry price there is no loss. */
  lemma NoLossAtEntry(lower: int, upper: int)
    requires Supported(MidTick(lower, upper))
    ensures EstimateIlBps(lower, upper, PriceAt(MidTick(lower, upper))) == 0
  {
    hide PriceAt, SatMul, Table;
    var entry := PriceAt(MidTick(lower, upper));
    PriceRange(MidTick(lower, upper));
    assert SatMul(entry, SCALE) == entry * SCALE;
    DivUnique(entry * SCALE, entry, SCALE);
    assert RootRatio(entry, entry) == SCALE;
    assert LossBps(SCALE) == 0;
  }

  /** The estimate from its quotients, each the floor of a product that stops at the largest number: the root of
      the price ratio, its square, and twice the root over one and the square. */
  lemma LossFromQuotients(root: int, r: int, quotient: int)
    requires 0 <= root <= 2 * MIN_PRICE && r >= 0 && quotient >= 0
    requires r * SCALE <= Min(root * root, I128_MAX) < r * SCALE + SCALE
    requires quotient * (SCALE + r) <= 2 * root * SCALE < quotient * (SCALE + r) + SCALE + r
    ensures quotient <= SCALE && LossBps(root) == -((SCALE - quotient) / 100)
  {
    hide SatMul, TruncDiv;
    MulNonNegative(root, root);
    assert SatMul(root, root) == Min(root * root, I128_MAX);
    DivUnique(SatMul(root, root), SCALE, r);
    DivUnique(2 * root * SCALE, SCALE + r, quotient);
    assert SatMul(2 * root, SCALE) == 2 * root * SCALE;
    LossQuotient(root);
    NegativeBps(SCALE - quotient);
  }

  lemma NegativeBps(missing: int)
    requires missing >= 0
    ensures TruncDiv(-missing * 10_000, SCALE) == -(missing / 100)
  {
    assert missing * 10_000 / SCALE == missing / 100;
  }

  /** The estimate for any range and price: two square roots of r over one and r, less one, in basis points, where
      the root of r is the price over that of the middle tick. */
  lemma EstimateIs(lower: int, upper: int, price: int, root: int, r: int, quotient: int)
    requires price >= 0 && Supported(MidTick(lower, upper)) && root >= 0 && r >= 0 && quotient >= 0
    requires var entry := PriceAt(MidTick(lower, upper));
      root * entry <= Min(price * SCALE, I128_MAX) < root * entry + entry
    requires r * SCALE <= Min(root * root, I128_MAX) < r * SCALE + SCALE
    requires quotient * (SCALE + r) <= 2 * root * SCALE < quotient * (SCALE + r) + SCALE + r
    ensures EstimateIlBps(lower, upper, price) == -((SCALE - quotient) / 100)
  {
    hide SatMul, TruncDiv, PriceAt, LossBps, Table;
    var entry := PriceAt(MidTick(lower, upper));
    PriceRange(MidTick(lower, upper));
    assert SatMul(price, SCALE) == Min(price * SCALE, I128_MAX);
    DivUnique(SatMul(price, SCALE), entry, root);
    RootIsSmall(price, entry);
    LossFromQuotients(root, r, quotient);
  }

  /** When the root of the price ratio doubles or halves, the loss is a fifth. */
  lemma LossAtTwiceTheRoot()
    ensures LossBps(2 * SCALE) == -2_000 && LossBps(SCALE / 2) == -2_000
  {
    hide SatMul;
    LossFromQuotients(2_000_000, 4_000_000, 800_000);
    LossFromQuotients(500_000, 250_000, 800_000);
  }

  /** The entry tick is the middle of the range, the half of an odd sum rounded towards zero. */
  lemma MidTickIsMiddle(lower: int, upper: int)
    requires lower < upper
    ensures lower <= MidTick(lower, upper) <= upper
    ensures -1 <= 2 * MidTick(lower, upper) - (lower + upper) <= 1
    ensures MidTick(-upper, -lower) == -MidTick(lower, upper)
  {
  }

  /** A loss of at least two percent locks one part in twenty of each deposited amount, rounded down; a
      smaller one locks nothing. */
  lemma ReserveIsOneInTwenty(ilBps: int, amountA: int, amountB: int)
    requires amountA >= 0 && amountB >= 0 && ilBps <= 0
    ensures var (a, b) := HedgeReserve(ilBps, amountA, amountB);
      && (ilBps > -200 ==> a == 0 && b == 0)
      && (ilBps <= -200 ==> 20 * a <= amountA < 20 * (a + 1) && 20 * b <= amountB < 20 * (b + 1))
  {
  }

  // ---------------------------------------------------------------- release

  /** Removing liquidity releases no more than the reserve, and the whole position releases all of it. */
  lemma ReleaseWithinReserve(reserve: int, removed: int, total: int)
    requires reserve >= 0 && 0 < removed <= total
    ensures 0 <= HedgeRelease(reserve, removed, total) <= reserve
    ensures removed == total ==> HedgeRelease(reserve, removed, total) == reserve
  {
    hide TruncDiv;
    MulNonNegative(reserve, removed);
    MulMonotone(removed, total, reserve);
    DivMonotone(reserve * removed, reserve * total, total);
    DivUnique(reserve * total, total, reserve);
  }

  /** The release is the floor of the reserve's share for the part removed. */
  lemma ReleaseIsShare(reserve: int, removed: int, total: int)
    requires reserve >= 0 && 0 < removed <= total
    ensures var released := HedgeRelease(reserve, removed, total);
      released * total <= reserve * removed < (released + 1) * total
  {
    hide TruncDiv;
    MulNonNegative(reserve, removed);
    DivBounds(reserve * removed, total);
  }

  lemma ReserveNonNegative(ilBps: int, amountA: int, amountB: int)
    requires amountA >= 0 && amountB >= 0
    ensures var (a, b) := HedgeReserve(ilBps, amountA, amountB);
      0 <= a <= amountA && 0 <= b <= amountB
  {
  }
}
