/**
 * Carrier-to-noise curves of the TC90522 demodulator (`cn_s`, `cn_t` in
 * `tc90522_status`): fixed-point Horner evaluations, results in 0.0001 dB.
 */
module Tc90522Cnr {
  import opened Wrappers

  /**
   * Floor square root, standing in for the kernel's `int_sqrt`; the model
   * relies only on its contract.
   */
  function IntSqrt(n: nat): (r: nat)
    ensures r * r <= n < (r + 1) * (r + 1)
    decreases n
  {
    if n < 4 then (if n == 0 then 0 else 1)
    else
      var s := IntSqrt(n / 4);
      SqrtStep(n, s);
      if (2 * s + 1) * (2 * s + 1) <= n then 2 * s + 1 else 2 * s
  }

  lemma SqrtStep(n: nat, s: nat)
    requires s * s <= n / 4 < (s + 1) * (s + 1)
    ensures (2 * s) * (2 * s) <= n < (2 * s + 2) * (2 * s + 2)
  {
    assert (2 * s) * (2 * s) == 4 * (s * s);
    assert (2 * s + 2) * (2 * s + 2) == 4 * ((s + 1) * (s + 1));
    assert (s + 1) * (s + 1) >= n / 4 + 1;
  }

  /** The floor square root is the only root with the contract. */
  lemma SqrtUnique(n: nat, r: nat)
    requires r * r <= n < (r + 1) * (r + 1)
    ensures r == IntSqrt(n)
  {
    var s := IntSqrt(n);
    if r < s {
      assert r + 1 <= s;
      MulLe(r + 1, s);
    } else if s < r {
      assert s + 1 <= r;
      MulLe(s + 1, r);
    }
  }

  lemma MulLe(a: nat, b: nat)
    requires a <= b
    ensures a * a <= b * b
  {
    assert a * a <= a * b <= b * b;
  }

  const Q16: int := 0x1_0000
  const Q22: int := 0x40_0000

  /**
   * `cn_s` (ISDB-S): the raw value less 3000, floored at 0, goes through a square
   * root and a degree-4 polynomial; a negative result is reported as 0.
   * Right shifts of negative values are arithmetic, i.e. floor divisions.
   */
  function CnS(raw: int): (cn: int)
    ensures cn >= 0
    ensures raw <= 3000 ==> cn == 588570
  {
    var r := if raw - 3000 < 0 then 0 else raw - 3000;
    var x := IntSqrt(r * 0x10_0000);
    var y := 16346 * x - 143410 * Q16;
    var y := (x * y) / Q16 + 502590 * Q16;
    var y := (x * y) / Q16 - 889770 * Q16;
    var y := (x * y) / Q16 + 895650 * Q16;
    var y := 588570 * Q16 - (x * y) / Q16;
    if y < 0 then 0 else y / Q16
  }

  /**
   * The shift-sum approximation of 0.24 x used by `cn_t`. Each shift truncates
   * by less than one: the sum is 983/4096 of x, less at most 5 and plus at most 2.
   */
  function ShiftSum(x: int): (r: int)
    ensures 983 * x - 5 * 4096 < 4096 * r < 983 * x + 2 * 4096
  {
    x / 4 - x / 64 + x / 256 + x / 512 - x / 1024 + x / 2048 + x / 4096
  }

  const TWO_63: int := 0x8000_0000_0000_0000
  const TWO_64: int := 0x1_0000_0000_0000_0000

  /** An `s64` result: the value reduced into [-2^63, 2^63), as the kernel's wrapping arithmetic does. */
  function S64(v: int): (r: int)
    ensures -TWO_63 <= r < TWO_63
    ensures (r - v) % TWO_64 == 0
    ensures -TWO_63 <= v < TWO_63 ==> r == v
  {
    (v + TWO_63) % TWO_64 - TWO_63
  }

  /**
   * One 22-bit Horner step as the C code computes it: the `s64` product y * x
   * with the fraction dropped, plus a constant. The sum itself stays far inside
   * `s64` (below 2^42 in magnitude), so only the product can wrap.
   */
  function Horner(x: int, y: int, c: int): (r: int)
    ensures -TWO_63 <= x * y < TWO_63 ==> r == ExactHorner(x, y, c)
  {
    S64(x * y) / Q22 + c * Q22
  }

  /** The same step on unbounded integers: the polynomial the code evaluates. */
  function ExactHorner(x: int, y: int, c: int): int
  {
    (x * y) / Q22 + c * Q22
  }

  /** The argument of the `cn_t` polynomial for a logarithm (no `s64` wrap: |x| < 2^34). */
  function CnTArg(log: u32): int
  {
    (1130911733 - 10 * log) / 4
  }

  /**
   * The `cn_t` curve for a given `intlog10` value, as the code computes it:
   * a shift-sum approximation followed by three 22-bit Horner steps whose
   * products wrap in `s64`; there is no clamp at zero.
   */
  function CnTCurve(log: u32): (r: int)
    ensures CNT_LOG_MIN <= log <= CNT_LOG_MAX ==> r == CnTPoly(log)
  {
    var x := CnTArg(log);
    if CNT_LOG_MIN <= log <= CNT_LOG_MAX then
      assert -25 * Q22 <= x <= 42 * Q22;
      if x >= 0 then PositiveProductsFit(x); CnTSteps(x) else NegativeProductsFit(x); CnTSteps(x)
    else CnTSteps(x)
  }

  /** The three wrapping Horner steps of the `cn_t` curve on the argument x. */
  function CnTSteps(x: int): int
  {
    var y := Horner(x, ShiftSum(x) - 16 * Q22, 398);
    var y := Horner(x, y, 5491);
    var y := Horner(x, y, 30965);
    y / Q22
  }

  /** The polynomial the `cn_t` curve evaluates, on unbounded integers. */
  function CnTPoly(log: u32): int
  {
    var x := CnTArg(log);
    var y := ExactHorner(x, ShiftSum(x) - 16 * Q22, 398);
    var y := ExactHorner(x, y, 5491);
    var y := ExactHorner(x, y, 30965);
    y / Q22
  }

  /**
   * The logarithms for which no product of the `cn_t` curve leaves `s64`:
   * CnTArg(log) lies in [-25, 42] in 2^22 units. They belong to raw values
   * from about 348 to about 2^29.
   */
  const CNT_LOG_MIN: int := 42626866
  const CNT_LOG_MAX: int := 155034213

  /**
   * `cn_t` (ISDB-T): 0 for a zero raw value; otherwise the curve at
   * `intlog10(raw)`, the argument converted to `u32`. For a logarithm in the
   * range where the products stay inside `s64`, the curve is above 1.2 dB,
   * so a zero result there means a zero raw value.
   */
  function CnT(raw: int, intlog10: u32 -> u32): (cn: int)
    ensures raw == 0 ==> cn == 0
    ensures raw != 0 && CNT_LOG_MIN <= intlog10(raw % TWO_32) <= CNT_LOG_MAX ==> cn >= 12000
  {
    if raw == 0 then 0
    else
      var log := intlog10(raw % TWO_32);
      if CNT_LOG_MIN <= log <= CNT_LOG_MAX then
        CnTPolyAbove(log);
        CnTCurve(log)
      else
        CnTCurve(log)
  }

  lemma MulNonneg(a: int, b: int)
    requires (0 <= a && 0 <= b) || (a <= 0 && b <= 0)
    ensures 0 <= a * b
  {
  }

  lemma MulBelow(a: int, b: int, bigA: int, bigB: int)
    requires 0 <= a <= bigA && 0 <= b <= bigB
    ensures a * b <= bigA * bigB
  {
    assert a * b <= bigA * b <= bigA * bigB;
  }

  /** A product of a non-negative factor of at least a and a non-positive factor of at most h is at most a h. */
  lemma MulUpperNeg(x: int, y: int, a: int, h: int)
    requires 0 <= a <= x && y <= h <= 0
    ensures x * y <= a * h
  {
    MulNonneg(x, h - y);
    MulNonneg(x - a, -h);
  }

  /** 4ab <= (a + b)^2. */
  lemma ProductBelowSquare(a: int, b: int)
    ensures 4 * (a * b) <= (a + b) * (a + b)
  {
    assert (a + b) * (a + b) - 4 * (a * b) == (a - b) * (a - b);
    MulNonneg(a - b, a - b);
  }

  /** A Horner step whose product is at least -k (in 2^44 units) is at least c - k (in 2^22 units). */
  lemma HornerAbove(x: int, y: int, c: int, k: int)
    requires x * y >= -k * Q22 * Q22
    ensures ExactHorner(x, y, c) >= (c - k) * Q22
  {
  }

  /** A Horner step on a negative x and a coefficient of at least m is at most c + m x (in 2^22 units). */
  lemma HornerBelow(x: int, y: int, c: int, m: int)
    requires x < 0 && y >= m * Q22
    ensures ExactHorner(x, y, c) <= c * Q22 + m * x
  {
    MulNonneg(-x, y - m * Q22);
    assert x * y <= (m * x) * Q22;
  }

  /**
   * For a non-negative argument (a logarithm below 113091174) the first Horner
   * product stays above -397 in 2^44 units: the factor y, the shift sum less 16
   * (in 2^22 units), is below zero by less as the argument grows.
   */
  lemma FirstProductAbove(x: int, y: int)
    requires 0 <= x <= 282727933
    requires 983 * x - 5 * 4096 < 4096 * (y + 16 * Q22)
    ensures x * y >= -397 * Q22 * Q22
  {
    if y >= 0 {
      MulNonneg(x, y);
    } else {
      if x <= 20 * Q22 {
        MulBelow(x, -y, 20 * Q22, 17 * Q22);
      } else if x <= 30 * Q22 {
        assert -y <= 12 * Q22;
        MulBelow(x, -y, 30 * Q22, 12 * Q22);
      } else if x <= 40 * Q22 {
        assert -y <= 9 * Q22;
        MulBelow(x, -y, 40 * Q22, 9 * Q22);
      } else if x <= 50 * Q22 {
        assert -y <= 7 * Q22;
        MulBelow(x, -y, 50 * Q22, 7 * Q22);
      } else {
        assert -y <= 5 * Q22;
        MulBelow(x, -y, 68 * Q22, 5 * Q22);
      }
      assert x * y == -(x * -y);
    }
  }

  /**
   * For a negative argument -v with a positive third coefficient y, that
   * coefficient is at most 5491 - 398 v (in 2^22 units), so v * y is at most
   * 5491^2 / 1592 < 18940 in 2^44 units.
   */
  lemma LastProductAbove(x: int, y: int)
    requires x < 0 && 0 < y && y <= 5491 * Q22 + 398 * x
    ensures x * y >= -18940 * Q22 * Q22
  {
    var v := -x;
    ProductBelowSquare(398 * v, y);
    assert 4 * ((398 * v) * y) == 1592 * (v * y);
    MulBelow(398 * v + y, 398 * v + y, 5491 * Q22, 5491 * Q22);
    assert x * y == -(v * y);
  }

  /** The polynomial is at least 1.2 dB for every logarithm. */
  lemma CnTPolyAbove(log: u32)
    ensures CnTPoly(log) >= 12000
  {
    var x := CnTArg(log);
    var y1 := ShiftSum(x) - 16 * Q22;
    var y2 := ExactHorner(x, y1, 398);
    var y3 := ExactHorner(x, y2, 5491);
    var y4 := ExactHorner(x, y3, 30965);
    assert CnTPoly(log) == y4 / Q22;
    if x >= 0 {
      FirstProductAbove(x, y1);
      HornerAbove(x, y1, 398, 397);
      MulNonneg(x, y2);
      HornerAbove(x, y2, 5491, 0);
      MulNonneg(x, y3);
      HornerAbove(x, y3, 30965, 0);
    } else {
      MulNonneg(x, y1);
      HornerAbove(x, y1, 398, 0);
      HornerBelow(x, y2, 5491, 398);
      if y3 <= 0 {
        MulNonneg(x, y3);
        HornerAbove(x, y3, 30965, 0);
      } else {
        LastProductAbove(x, y3);
        HornerAbove(x, y3, 30965, 18940);
      }
    }
  }

  /** A Horner step on x >= a >= 0 and a non-positive y <= h stays at most the step on a and h. */
  lemma HornerBelowNeg(x: int, y: int, c: int, a: int, h: int)
    requires 0 <= a <= x && y <= h <= 0
    ensures ExactHorner(x, y, c) <= (a * h) / Q22 + c * Q22
  {
    MulUpperNeg(x, y, a, h);
  }

  /** A Horner step on 0 <= x <= a and 0 <= y <= h stays at most the step on a and h. */
  lemma HornerBelowPos(x: int, y: int, c: int, a: int, h: int)
    requires 0 <= x <= a && 0 <= y <= h
    ensures ExactHorner(x, y, c) <= (a * h) / Q22 + c * Q22
  {
    MulBelow(x, y, a, h);
  }

  /**
   * On an argument in [xlo, xhi] within [0, 42] (2^22 units), given bounds
   * h1, h2, h3 that the factors of the three products cannot exceed, one step
   * at a time, every product of the polynomial lies in `s64`.
   */
  lemma PositiveProductsBelow(x: int, xlo: int, xhi: int, h1: int, h2: int, h3: int)
    requires 0 <= xlo <= x <= xhi <= 42 * Q22
    requires 983 * xhi + 8192 <= 4096 * (h1 + 16 * Q22) && h1 <= 0
    requires (xlo * h1) / Q22 + 398 * Q22 <= h2 && xhi * h2 < TWO_63
    requires (xhi * h2) / Q22 + 5491 * Q22 <= h3 && xhi * h3 < TWO_63
    ensures var y1 := ShiftSum(x) - 16 * Q22;
            var y2 := ExactHorner(x, y1, 398);
            var y3 := ExactHorner(x, y2, 5491);
            -TWO_63 <= x * y1 < TWO_63 && -TWO_63 <= x * y2 < TWO_63 && -TWO_63 <= x * y3 < TWO_63
  {
    var y1 := ShiftSum(x) - 16 * Q22;
    var y2 := ExactHorner(x, y1, 398);
    var y3 := ExactHorner(x, y2, 5491);
    FirstProductAbove(x, y1);
    MulUpperNeg(x, y1, 0, y1);
    HornerAbove(x, y1, 398, 397);
    HornerBelowNeg(x, y1, 398, xlo, h1);
    MulNonneg(x, y2);
    MulBelow(x, y2, xhi, h2);
    HornerAbove(x, y2, 5491, 0);
    HornerBelowPos(x, y2, 5491, xhi, h2);
    MulNonneg(x, y3);
    MulBelow(x, y3, xhi, h3);
  }

  /** On a non-negative argument up to 42 (2^22 units) every product of the polynomial lies in `s64`. */
  lemma PositiveProductsFit(x: int)
    requires 0 <= x <= 42 * Q22
    ensures var y1 := ShiftSum(x) - 16 * Q22;
            var y2 := ExactHorner(x, y1, 398);
            var y3 := ExactHorner(x, y2, 5491);
            -TWO_63 <= x * y1 < TWO_63 && -TWO_63 <= x * y2 < TWO_63 && -TWO_63 <= x * y3 < TWO_63
  {
    if x <= 30 * Q22 {
      PositiveProductsBelow(x, 0, 30 * Q22, -36911102, 1669332992, 73110913024);
    } else if x <= 36 * Q22 {
      PositiveProductsBelow(x, 30 * Q22, 36 * Q22, -30871550, 743186492, 49785636976);
    } else if x <= 40 * Q22 {
      PositiveProductsBelow(x, 36 * Q22, 40 * Q22, -26845182, 702906440, 51147180864);
    } else {
      PositiveProductsBelow(x, 40 * Q22, 42 * Q22, -24831998, 676053072, 51425152288);
    }
  }

  /** A product of factors in [-a, 0] and [-b, 0] lies in [0, a b]. */
  lemma MulNegNeg(x: int, y: int, a: int, b: int)
    requires -a <= x <= 0 && -b <= y <= 0
    ensures 0 <= x * y <= a * b
  {
    MulBelow(-x, -y, a, b);
    assert x * y == (-x) * (-y);
  }

  /** A product of factors in [-a, 0] and [0, b] lies in [-a b, 0]. */
  lemma MulNegPos(x: int, y: int, a: int, b: int)
    requires -a <= x <= 0 && 0 <= y <= b
    ensures -(a * b) <= x * y <= 0
  {
    MulBelow(-x, y, a, b);
    assert x * y == -((-x) * y);
  }

  /** On a negative argument down to -25 (2^22 units) every product of the polynomial lies in `s64`. */
  lemma NegativeProductsFit(x: int)
    requires -25 * Q22 <= x < 0
    ensures var y1 := ShiftSum(x) - 16 * Q22;
            var y2 := ExactHorner(x, y1, 398);
            var y3 := ExactHorner(x, y2, 5491);
            -TWO_63 <= x * y1 < TWO_63 && -TWO_63 <= x * y2 < TWO_63 && -TWO_63 <= x * y3 < TWO_63
  {
    var y1 := ShiftSum(x) - 16 * Q22;
    var y2 := ExactHorner(x, y1, 398);
    var y3 := ExactHorner(x, y2, 5491);
    assert -23 * Q22 <= y1 <= 0 by {
    }
    MulNegNeg(x, y1, 25 * Q22, 23 * Q22);
    assert 398 * Q22 <= y2 <= 973 * Q22;
    MulNegPos(x, y2, 25 * Q22, 973 * Q22);
    assert -18834 * Q22 <= y3 <= 5491 * Q22;
    if y3 >= 0 {
      MulNegPos(x, y3, 25 * Q22, 5491 * Q22);
    } else {
      MulNegNeg(x, y3, 25 * Q22, 18834 * Q22);
    }
  }

  /**
   * Outside that range the products wrap: for a raw value of 100, whose
   * logarithm is 2 * 2^24, the code reports -35.5 dB where the polynomial
   * gives 69.3 dB.
   */
  lemma CnTCurveWrapsLow()
    ensures CnTCurve(33554432) == -355331
    ensures CnTPoly(33554432) == 693245
  {
    var x := CnTArg(33554432);
    assert x == 198841853;
    assert ShiftSum(x) == 47720101 by {
      assert x / 4 == 49710463 && x / 64 == 3106903 && x / 256 == 776725;
      assert x / 512 == 388362 && x / 1024 == 194181 && x / 2048 == 97090 && x / 4096 == 48545;
    }
    assert x * -19388763 == -3855297562297839;
    assert Horner(x, -19388763, 398) == ExactHorner(x, -19388763, 398) == 750158425;
    assert x * 750158425 == 149162891270561525;
    assert Horner(x, 750158425, 5491) == ExactHorner(x, 750158425, 5491) == 58594127855;
    assert x * 58594127855 == 11650964957607115315;
    assert S64(11650964957607115315) == -6795779116102436301;
    assert Horner(x, 58594127855, 30965) == -1490363377390;
    assert ExactHorner(x, 58594127855, 30965) == 2907683133714;
  }

  /**
   * A logarithm near that of 2^32 - 5, which a failed read (-EIO) converts to,
   * also wraps: the code reports -28.8 dB where the polynomial gives 76.0 dB.
   */
  lemma CnTCurveWrapsHigh()
    ensures CnTCurve(161614248) == -288496
    ensures CnTPoly(161614248) == 760080
  {
    var x := CnTArg(161614248);
    assert x == -121307687;
    assert ShiftSum(x) == -29112663 by {
      assert x / 4 == -30326922 && x / 64 == -1895433 && x / 256 == -473859;
      assert x / 512 == -236930 && x / 1024 == -118465 && x / 2048 == -59233 && x / 4096 == -29617;
    }
    assert x * -96221527 == 11672410879978049;
    assert Horner(x, -96221527, 398) == ExactHorner(x, -96221527, 398) == 4452252608;
    assert x * 4452252608 == -540092465816197696;
    assert Horner(x, 4452252608, 5491) == ExactHorner(x, 4452252608, 5491) == -105737155020;
    assert x * -105737155020 == 12826729705436638740;
    assert S64(12826729705436638740) == -5620014368272912876;
    assert Horner(x, -105737155020, 30965) == -1210039216854;
    assert ExactHorner(x, -105737155020, 30965) == 3188007294250;
  }

  /**
   * Apart from the zero test, `cn_t` sees its input only through `intlog10`:
   * inputs with equal logarithms get equal results, whatever the logarithm is.
   */
  lemma CnTThroughLog(raw1: int, raw2: int, intlog10: u32 -> u32)
    requires raw1 != 0 && raw2 != 0
    requires intlog10(raw1 % TWO_32) == intlog10(raw2 % TWO_32)
    ensures CnT(raw1, intlog10) == CnT(raw2, intlog10)
  {
  }
}
