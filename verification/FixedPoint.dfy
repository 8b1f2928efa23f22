/** Signed 128-bit arithmetic as the AMM contract uses it: values scaled by 2^64, multiplications
    that saturate, multiplications that abort the call on overflow, and division truncating
    toward zero. */
module FixedPoint {

  const Q64: int := 0x1_0000_0000_0000_0000
  const I128_MAX: int := 0x7fff_ffff_ffff_ffff_ffff_ffff_ffff_ffff
  const I128_MIN: int := -0x8000_0000_0000_0000_0000_0000_0000_0000

  /** The result of a calculation that an overflow of a plain operator aborts. */
  datatype Checked<+T> = Ok(value: T) | Overflow

  /** A plain `+`, `-` or `*` whose exact result does not satisfy this predicate aborts the call. */
  predicate Fits(x: int) {
    I128_MIN <= x <= I128_MAX
  }

  function Saturate(x: int): (r: int)
    ensures Fits(r)
    ensures Fits(x) ==> r == x
    ensures x >= 0 ==> 0 <= r <= x
    ensures x <= 0 ==> x <= r <= 0
  {
    if x > I128_MAX then I128_MAX else if x < I128_MIN then I128_MIN else x
  }

  function SatMul(a: int, b: int): (r: int)
    ensures Fits(r)
    ensures Fits(a * b) ==> r == a * b
    ensures a * b > I128_MAX ==> r == I128_MAX
    ensures a >= 0 && b >= 0 ==> 0 <= r <= a * b
    ensures a <= 0 && b >= 0 ==> a * b <= r <= 0
  {
    Saturate(a * b)
  }

  function SatAdd(a: int, b: int): (r: int)
    ensures Fits(r)
    ensures Fits(a + b) ==> r == a + b
    ensures a >= 0 && b >= 0 ==> r <= a + b
    ensures a >= 0 && 0 <= b <= I128_MAX ==> b <= r
    ensures 0 <= a <= I128_MAX && b >= 0 ==> a <= r
  {
    Saturate(a + b)
  }

  /** Integer division of the source, which truncates toward zero. */
  function TruncDiv(a: int, b: int): (q: int)
    requires b > 0
    ensures a >= 0 ==> q == a / b && q >= 0
    ensures a <= 0 ==> q <= 0
  {
    if a >= 0 then a / b else -((-a) / b)
  }

  lemma DivBounds(a: int, b: int)
    requires b > 0
    ensures (a / b) * b <= a < (a / b) * b + b
  {
    assert a == b * (a / b) + a % b;
  }

  lemma DivNonNegative(a: int, b: int)
    requires b > 0 && a >= 0
    ensures 0 <= a / b <= a
  {
    DivBounds(a, b);
    if a / b < 0 {
      MulMonotone(a / b, -1, b);
    }
    if a / b > a {
      MulMonotone(a + 1, a / b, b);
      MulMonotone(1, b, a);
    }
  }

  lemma MulMonotone(a: int, b: int, c: int)
    requires a <= b && c >= 0
    ensures a * c <= b * c
  {
    assert (b - a) * c >= 0;
  }

  /** The quotient is the only integer between whose multiples the dividend lies. */
  lemma DivUnique(a: int, b: int, q: int)
    requires b > 0 && q * b <= a < q * b + b
    ensures a / b == q
  {
    DivBounds(a, b);
    if a / b < q {
      MulMonotone(a / b + 1, q, b);
    } else if a / b > q {
      MulMonotone(q + 1, a / b, b);
    }
  }

  lemma DivAtLeast(a: int, b: int, q: int)
    requires b > 0
    ensures q * b <= a <==> q <= a / b
  {
    DivBounds(a, b);
    if q <= a / b {
      MulMonotone(q, a / b, b);
    } else {
      MulMonotone(a / b + 1, q, b);
    }
  }

  lemma DivMonotone(a: int, b: int, c: int)
    requires a <= b && c > 0
    ensures a / c <= b / c
  {
    DivBounds(a, c);
    DivAtLeast(b, c, a / c);
  }

  /** Floors lose value when a sum is split. */
  lemma DivSuperadditive(a: int, b: int, c: int)
    requires c > 0
    ensures a / c + b / c <= (a + b) / c
  {
    DivBounds(a, c);
    DivBounds(b, c);
    assert (a / c + b / c) * c == (a / c) * c + (b / c) * c;
    DivAtLeast(a + b, c, a / c + b / c);
  }

  lemma MulNonNegative(a: int, b: int)
    requires a >= 0 && b >= 0
    ensures a * b >= 0
  {
  }
}
