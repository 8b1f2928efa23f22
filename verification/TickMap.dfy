/** The table-driven map between ticks and square-root prices. */
module TickMap {
  import opened Common
  import opened FixedPoint

  const MIN_TICK: int := -8192
  const MAX_TICK: int := 8192
  const STEP: int := 512

  const MIN_PRICE: int := 12_247_334_978_884_438_016
  const MAX_PRICE: int := 27_784_196_929_994_764_288

  /** The table: entry i is for tick -8192 + 512 i. Prices increase strictly, and each of them is a
      multiple of 512. */
  function Table(): (table: seq<(int, int)>)
    ensures |table| == 33
    ensures forall i :: 0 <= i < 33 ==> table[i].0 == MIN_TICK + STEP * i
    ensures forall i :: 0 <= i < 33 ==> table[i].1 % STEP == 0
    ensures forall i :: 0 <= i < 32 ==> table[i].1 + STEP <= table[i + 1].1
    ensures table[0].1 == MIN_PRICE && table[32].1 == MAX_PRICE
  {
    [(-8192, 12_247_334_978_884_438_016),
     (-7680, 12_564_898_345_393_909_760),
     (-7168, 12_890_695_869_940_434_944),
     (-6656, 13_224_941_057_498_855_424),
     (-6144, 13_567_852_949_053_179_904),
     (-5632, 13_919_656_265_140_750_336),
     (-5120, 14_280_581_553_118_414_848),
     (-4608, 14_650_865_338_247_188_480),
     (-4096, 15_030_750_278_694_412_288),
     (-3584, 15_420_485_324_554_993_664),
     (-3072, 15_820_325_880_995_923_968),
     (-2560, 16_230_533_975_631_024_128),
     (-2048, 16_651_378_430_235_568_128),
     (-1536, 17_083_135_036_913_317_888),
     (-1024, 17_526_086_738_831_433_728),
     (-512, 17_980_523_815_641_698_304),
     (0, 18_446_744_073_709_551_616),
     (512, 18_925_053_041_275_609_088),
     (1024, 19_415_764_168_677_568_512),
     (1536, 19_919_199_033_763_692_544),
     (2048, 20_435_687_552_632_508_416),
     (2560, 20_965_568_195_836_801_024),
     (3072, 21_509_188_210_193_616_896),
     (3584, 22_066_903_846_345_601_024),
     (4096, 22_639_080_592_222_822_400),
     (4608, 23_226_093_412_558_073_856),
     (5120, 23_828_326_994_612_617_216),
     (5632, 24_446_176_000_273_354_752),
     (6144, 25_080_045_324_686_745_600),
     (6656, 25_730_350_361_598_795_776),
     (7168, 26_397_517_275_575_197_696),
     (7680, 27_081_983_281_279_832_064),
     (8192, 27_784_196_929_994_764_288)]
  }

  predicate Supported(tick: int) {
    MIN_TICK <= tick <= MAX_TICK
  }

  /** Linear interpolation between the two table entries around a supported tick. */
  function PriceAt(tick: int): int
    requires Supported(tick)
  {
    var i := Segment(tick);
    var (t0, s0) := Table()[i];
    var (t1, s1) := Table()[i + 1];
    s0 + (s1 - s0) * (tick - t0) / (t1 - t0)
  }

  function Segment(tick: int): (i: int)
    requires Supported(tick)
    ensures 0 <= i < 32 && Table()[i].0 <= tick <= Table()[i + 1].0
  {
    Min((tick - MIN_TICK) / STEP, 31)
  }

  /** The scan for the segment holding a price, from segment i on. */
  function ScanFrom(price: int, i: int): int
    requires 0 <= i <= 32
    decreases 32 - i
  {
    if i == 32 then
      if price <= Table()[0].1 then MIN_TICK else MAX_TICK
    else if Table()[i].1 <= price < Table()[i + 1].1 then
      Table()[i].0 + TruncDiv((price - Table()[i].1) * STEP, Max(Table()[i + 1].1 - Table()[i].1, 1))
    else
      ScanFrom(price, i + 1)
  }

  function TickAt(price: int): int {
    ScanFrom(price, 0)
  }

  method SqrtPriceToTick(price: int) returns (tick: int)
    ensures tick == TickAt(price)
    ensures Supported(tick)
    ensures forall t :: MIN_TICK < t <= MAX_TICK ==> (t <= tick <==> PriceAt(t) <= price)
  {
    hide Table, PriceAt, TruncDiv;
    forall t | MIN_TICK < t <= MAX_TICK
      ensures t <= TickAt(price) <==> PriceAt(t) <= price
    {
      TickPriceAdjunction(price, t);
    }
    TickAtSupported(price);
    for i := 0 to 32
      invariant TickAt(price) == ScanFrom(price, i)
    {
      var (t0, s0) := Table()[i];
      var (_, s1) := Table()[i + 1];
      if price >= s0 && price < s1 {
        var frac := TruncDiv((price - s0) * STEP, Max(s1 - s0, 1));
        return t0 + frac;
      }
    }
    tick := if price <= Table()[0].1 then MIN_TICK else MAX_TICK;
  }

  /** Price of one tick inside segment i. It is exact because entries are multiples of 512. */
  function Gap(i: int): (g: int)
    requires 0 <= i < 32
    ensures g > 0 && Table()[i].1 + STEP * g == Table()[i + 1].1
  {
    (Table()[i + 1].1 - Table()[i].1) / STEP
  }

  /** Interpolation loses nothing, and the two segments meeting at an entry agree on it. */
  lemma PriceIsExact(tick: int, i: int)
    requires Supported(tick) && 0 <= i < 32 && Table()[i].0 <= tick <= Table()[i + 1].0
    ensures PriceAt(tick) == Table()[i].1 + Gap(i) * (tick - Table()[i].0)
  {
    hide Table, PriceAt, Gap;
    ExactInSegment(tick, Segment(tick));
    if Segment(tick) != i {
      assert tick == Table()[i + 1].0 && Segment(tick) == i + 1;
    }
  }

  lemma ExactInSegment(tick: int, i: int)
    requires Supported(tick) && i == Segment(tick)
    ensures PriceAt(tick) == Table()[i].1 + Gap(i) * (tick - Table()[i].0)
  {
    hide Table;
    var n, g := tick - Table()[i].0, Gap(i);
    assert (Table()[i + 1].1 - Table()[i].1) * n == (g * n) * STEP by {
      assert Table()[i + 1].1 - Table()[i].1 == g * STEP;
    }
    DivUnique((Table()[i + 1].1 - Table()[i].1) * n, STEP, g * n);
  }

  lemma PriceIncreasesByOne(tick: int)
    requires Supported(tick) && Supported(tick + 1)
    ensures PriceAt(tick) < PriceAt(tick + 1)
  {
    hide Table, PriceAt, Gap;
    var i := (tick - MIN_TICK) / STEP;
    PriceIsExact(tick, i);
    PriceIsExact(tick + 1, i);
    var n, g := tick - Table()[i].0, Gap(i);
    assert g * (n + 1) == g * n + g;
  }

  lemma {:induction false} PriceStrictlyIncreasing(t: int, u: int)
    requires Supported(t) && Supported(u) && t < u
    ensures PriceAt(t) < PriceAt(u)
    decreases u - t
  {
    hide Table, PriceAt;
    PriceIncreasesByOne(t);
    if t + 1 < u {
      PriceStrictlyIncreasing(t + 1, u);
    }
  }

  lemma PriceRange(t: int)
    requires Supported(t)
    ensures MIN_PRICE <= PriceAt(t) <= MAX_PRICE
    ensures t == MIN_TICK ==> PriceAt(t) == MIN_PRICE
    ensures t == MAX_TICK ==> PriceAt(t) == MAX_PRICE
  {
    hide Table, PriceAt;
    PriceIsExact(MIN_TICK, 0);
    PriceIsExact(MAX_TICK, 31);
    if MIN_TICK < t {
      PriceStrictlyIncreasing(MIN_TICK, t);
    }
    if t < MAX_TICK {
      PriceStrictlyIncreasing(t, MAX_TICK);
    }
  }

  /** What the scan returns: inside the table the floor of the price, outside it the nearer end. */
  lemma {:induction false} ScanFinds(price: int, i: int)
    requires 0 <= i <= 32
    requires i == 0 || !(MIN_PRICE <= price < Table()[i].1)
    ensures var t := ScanFrom(price, i);
      && Supported(t)
      && (price < MIN_PRICE ==> t == MIN_TICK)
      && (price >= MAX_PRICE ==> t == MAX_TICK)
      && (MIN_PRICE <= price < MAX_PRICE ==> t < MAX_TICK && PriceAt(t) <= price < PriceAt(t + 1))
    decreases 32 - i
  {
    hide Table, PriceAt, TruncDiv;
    if i < 32 {
      if Table()[i].1 <= price < Table()[i + 1].1 {
        WithinTable(price, i);
        ScanHits(price, i);
      } else {
        ScanFinds(price, i + 1);
      }
    }
  }

  lemma WithinTable(price: int, i: int)
    requires 0 <= i < 32 && Table()[i].1 <= price < Table()[i + 1].1
    ensures MIN_PRICE <= price < MAX_PRICE
  {
    hide Table;
    TableOrdered(0, i);
    TableOrdered(i + 1, 32);
  }

  lemma {:induction false} TableOrdered(i: int, j: int)
    requires 0 <= i <= j <= 32
    ensures Table()[i].1 <= Table()[j].1
    decreases j - i
  {
    hide Table;
    if i < j {
      TableOrdered(i + 1, j);
    }
  }

  lemma InverseInterpolation(d: int, g: int)
    requires g > 0 && 0 <= d < STEP * g
    ensures 0 <= d / g < STEP
    ensures (d * STEP) / (STEP * g) == d / g
    ensures g * (d / g) <= d < g * (d / g + 1)
  {
    var n := d / g;
    DivBounds(d, g);
    DivNonNegative(d, g);
    DivAtLeast(d, g, STEP);
    assert n * (STEP * g) == (n * g) * STEP;
    DivUnique(d * STEP, STEP * g, n);
  }

  lemma ScanHits(price: int, i: int)
    requires 0 <= i < 32 && Table()[i].1 <= price < Table()[i + 1].1
    ensures var t := ScanFrom(price, i);
      Table()[i].0 <= t < Table()[i + 1].0 && Supported(t) && Supported(t + 1) &&
      PriceAt(t) <= price < PriceAt(t + 1)
  {
    hide Table, PriceAt;
    var d, g := price - Table()[i].1, Gap(i);
    InverseInterpolation(d, g);
    assert ScanFrom(price, i) == Table()[i].0 + d / g;
    PriceIsExact(Table()[i].0 + d / g, i);
    PriceIsExact(Table()[i].0 + d / g + 1, i);
  }

  lemma TickAtSupported(price: int)
    ensures Supported(TickAt(price))
  {
    hide Table, PriceAt, ScanFrom;
    ScanFinds(price, 0);
  }

  /** The tick of a price is the floor inverse of the interpolated price. */
  lemma FloorInverse(price: int)
    requires MIN_PRICE <= price <= MAX_PRICE
    ensures Supported(TickAt(price))
    ensures PriceAt(TickAt(price)) <= price
    ensures TickAt(price) < MAX_TICK ==> price < PriceAt(TickAt(price) + 1)
  {
    hide Table, PriceAt, ScanFrom;
    ScanFinds(price, 0);
    PriceRange(MAX_TICK);
  }

  /** On every price, in the table or not, a tick is reached exactly when its price is. */
  lemma TickPriceAdjunction(price: int, t: int)
    requires MIN_TICK < t <= MAX_TICK
    ensures t <= TickAt(price) <==> PriceAt(t) <= price
  {
    hide Table, PriceAt, ScanFrom;
    ScanFinds(price, 0);
    PriceRange(t);
    var u := TickAt(price);
    if price < MIN_PRICE || price >= MAX_PRICE {
    } else if t <= u {
      if t < u {
        PriceStrictlyIncreasing(t, u);
      }
    } else if u + 1 < t {
      PriceStrictlyIncreasing(u + 1, t);
    }
    if price < MIN_PRICE {
      PriceStrictlyIncreasing(MIN_TICK, t);
      PriceRange(MIN_TICK);
    }
  }

  lemma TickOfPriceOfTick(t: int)
    requires Supported(t)
    ensures TickAt(PriceAt(t)) == t
  {
    hide Table, PriceAt, TickAt;
    var u := TickAt(PriceAt(t));
    TickAtSupported(PriceAt(t));
    if t > MIN_TICK {
      TickPriceAdjunction(PriceAt(t), t);
    }
    if t < u {
      TickPriceAdjunction(PriceAt(t), u);
      PriceStrictlyIncreasing(t, u);
    }
  }

  lemma TickMonotone(p: int, q: int)
    requires p <= q
    ensures TickAt(p) <= TickAt(q)
  {
    hide Table, PriceAt, TickAt;
    TickAtSupported(p);
    TickAtSupported(q);
    if TickAt(p) > MIN_TICK {
      TickPriceAdjunction(p, TickAt(p));
      TickPriceAdjunction(q, TickAt(p));
    }
  }
}
