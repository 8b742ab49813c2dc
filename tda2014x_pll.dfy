/**
 * PLL synthesiser arithmetic of the TDA2014x satellite tuner
 * (the computational part of `tda2014x_tune`): the shift-based division by
 * ten, the LO band index, the reference-ratio / predivider search, the
 * percentage switch producing `kint`, the integer/fraction split and the
 * fraction scaling loop that yields `CalcPow`.
 */
module Tda2014xPll {
  import opened Wrappers

  function Pow10(k: nat): (p: nat)
    ensures p >= 1
  {
    if k == 0 then 1 else 10 * Pow10(k - 1)
  }

  function Pow2(k: nat): (p: nat)
    ensures p >= 1
  {
    if k == 0 then 1 else 2 * Pow2(k - 1)
  }

  /** The unsigned right shift `x >> k`: the quotient of x by 2^k, rounded down. */
  function Shr(x: nat, k: nat): nat
    decreases k
  {
    if k == 0 then x else Shr(x / 2, k - 1)
  }

  /** A shift by k is a division by 2^k, rounded down. */
  lemma {:induction false} ShrDivides(x: nat, k: nat)
    ensures Shr(x, k) == x / Pow2(k)
    decreases k
  {
    if k > 0 {
      ShrDivides(x / 2, k - 1);
      DivDiv(x, 2, Pow2(k - 1));
    }
  }

  lemma ShrSmall(x: nat)
    ensures Shr(x, 0) == x && Shr(x, 1) == x / 2 && Shr(x, 2) == x / 4
  {
    assert Shr(x, 1) == Shr(x / 2, 0);
    assert Shr(x, 2) == Shr(x / 2, 1) == Shr(x / 2 / 2, 0);
  }

  /** An argument up to which one round of the shift-based division is exact. */
  const DIV10_EXACT_LIMIT: nat := 21095786859

  // ---------------------------------------------------------------------
  // div10: division by ten with shifts and a remainder correction
  // ---------------------------------------------------------------------

  /** The quotient estimate of one round of `div10`: n * 0.8 * (1 - 2^-32) / 8. */
  function Div10Estimate(n: nat): nat
  {
    var q1 := n / 2 + n / 4;
    var q2 := q1 + q1 / 16;
    var q3 := q2 + q2 / 256;
    var q4 := q3 + q3 / 65536;
    q4 / 8
  }

  /**
   * One round of the `div10` loop body: the estimate plus the remainder
   * correction. A round never overshoots n/10, is exact up to DIV10_EXACT_LIMIT
   * (so on all of u32), and stays large for large arguments.
   */
  function Div10Round(n: nat): (r: nat)
    ensures r <= n / 10
    ensures n <= DIV10_EXACT_LIMIT ==> r == n / 10
    ensures n >= TWO_32 ==> r >= 429496728
  {
    EstimateBounds(n);
    var q := Div10Estimate(n);
    var r := n - 10 * q;
    q + (if r > 9 then 1 else 0)
  }

  /** The estimate never exceeds n/10 and is at most 1.9 below it on the exact range. */
  lemma EstimateBounds(n: nat)
    ensures 10 * Div10Estimate(n) <= n
    ensures n <= DIV10_EXACT_LIMIT ==> n - 19 <= 10 * Div10Estimate(n)
    ensures n >= TWO_32 ==> Div10Estimate(n) >= 429496728
  {
    var q1 := n / 2 + n / 4;
    var q2 := q1 + q1 / 16;
    var q3 := q2 + q2 / 256;
    var q4 := q3 + q3 / 65536;
    var q := q4 / 8;
    assert 3 * n - 5 <= 4 * q1 <= 3 * n;
    assert 17 * q1 - 15 <= 16 * q2 <= 17 * q1;
    assert 257 * q2 - 255 <= 256 * q3 <= 257 * q2;
    assert 65537 * q3 - 65535 <= 65536 * q4 <= 65537 * q3;
    assert q4 - 7 <= 8 * q <= q4;
    assert 64 * q2 <= 51 * n;
    assert 16384 * q3 <= 13107 * n;
    assert 1073741824 * q4 <= 858993459 * n;
    assert 64 * q2 >= 51 * n - 145;
    assert 16384 * q3 >= 13107 * n - 53585;
    assert 1073741824 * q4 >= 858993459 * n - 4585525585;
  }

  /**
   * `div10(n, pow)`: pow rounds, applied in loop order. Every round only rounds
   * down, so the result never exceeds n / 10^pow, and on the exact range (which
   * contains all of u32) it is n / 10^pow.
   */
  function Div10Iter(n: nat, pow: nat): (r: nat)
    ensures r <= n / Pow10(pow)
    ensures n <= DIV10_EXACT_LIMIT ==> r == n / Pow10(pow)
    decreases pow
  {
    if pow == 0 then n
    else
      var m := Div10Round(n);
      DivMonotone(m, n / 10, Pow10(pow - 1));
      DivDiv(n, 10, Pow10(pow - 1));
      Div10Iter(m, pow - 1)
  }

  lemma MulMonotone(d: int, x: int, y: int)
    requires 0 <= d && x <= y
    ensures d * x <= d * y
  {
  }

  lemma DivUnique(a: int, d: int, q: int, r: int)
    requires 0 < d && 0 <= r < d && a == d * q + r
    ensures a / d == q
  {
    var q', r' := a / d, a % d;
    assert a == d * q' + r';
    assert d * q - d * q' == r' - r;
    if q > q' {
      MulMonotone(d, 1, q - q');
    } else if q < q' {
      MulMonotone(d, 1, q' - q);
    }
  }

  lemma DivDiv(a: nat, b: nat, c: nat)
    requires b > 0 && c > 0
    ensures a / b / c == a / (b * c)
  {
    var q := a / b;
    var q2 := q / c;
    assert a == b * q + a % b;
    assert q == c * q2 + q % c;
    assert b * q == b * (c * q2) + b * (q % c);
    assert b * (c * q2) == (b * c) * q2;
    MulMonotone(b, q % c, c - 1);
    assert b * (c - 1) == b * c - b;
    DivUnique(a, b * c, q2, b * (q % c) + a % b);
  }

  lemma DivMonotone(a: nat, b: nat, d: nat)
    requires a <= b && d > 0
    ensures a / d <= b / d
  {
    var qa, qb := a / d, b / d;
    assert a == d * qa + a % d && b == d * qb + b % d;
    if qa > qb {
      MulMonotone(d, qb + 1, qa);
    }
  }

  /** The `div10` helper of `tda2014x_tune`: `pow` rounds of shift-and-add division. */
  method Div10(n: nat, pow: nat) returns (r: nat)
    ensures r == Div10Iter(n, pow)
    ensures pow == 0 ==> r == n
    ensures r <= n / Pow10(pow)
    ensures n < TWO_32 ==> r == n / Pow10(pow)
  {
    r := n;
    var p: nat := pow;
    while p > 0
      invariant p <= pow
      invariant Div10Iter(r, p) == Div10Iter(n, pow)
    {
      r := Div10Step(r);
      p := p - 1;
    }
  }

  /** The body of the `div10` loop: the shift-and-add estimate, then the remainder correction. */
  method Div10Step(n: nat) returns (r: nat)
    ensures r == Div10Round(n)
    ensures r <= n / 10
    ensures n <= DIV10_EXACT_LIMIT ==> r == n / 10
  {
    var q := (n / 2) + (n / 4);
    q := q + q / 16;
    q := q + q / 256;
    q := q + q / 65536;
    q := q / 8;
    var rem := n - 10 * q;
    assert q == Div10Estimate(n);
    r := q + (if rem > 9 then 1 else 0);
  }

  // ---------------------------------------------------------------------
  // LO band and the reference value ResLsb
  // ---------------------------------------------------------------------

  /** The LO band index `i` selected by the tuned frequency (kHz). */
  function BandIndex(f: nat): (i: nat)
    ensures i <= 4
  {
    if f <= 1075000 then 0
    else if f <= 1228000 then 1
    else if f <= 1433000 then 2
    else if f <= 1720000 then 3
    else 4
  }

  /** The band index never decreases as the frequency rises, so the factor `8 - i` runs from 8 down to 4. */
  lemma BandIndexMonotone(f: nat, g: nat)
    requires f <= g
    ensures BandIndex(f) <= BandIndex(g)
    ensures 4 <= 8 - BandIndex(f) <= 8
  {
  }

  /** `(8 - i) * f_kHz * 1000UL / 27UL`: the first product is an `int * u32`
      multiplication, carried out in 32-bit unsigned arithmetic. */
  function RefUnits(f: u32): (resLsb: nat)
    ensures resLsb <= 159072862777
  {
    var product := (8 - BandIndex(f)) * f % TWO_32;
    assert product * 1000 <= 4294967295000;
    DivMonotone(product * 1000, 4294967295000, 27);
    product * 1000 / 27
  }

  /** `v15 = div10(ResLsb, 6)`. */
  function V15(f: u32): nat
  {
    Div10Iter(RefUnits(f), 6)
  }

  /** A reference value of at least 1008 * 10^6 always yields v15 >= 1008, even above
      the exact range of `div10`. */
  lemma V15Large(resLsb: nat)
    requires 1008000000 <= resLsb <= 159072862777
    ensures Div10Iter(resLsb, 6) >= 1008
  {
    assert Pow10(5) == 100000;
    assert Pow10(6) == 1000000;
    if resLsb <= DIV10_EXACT_LIMIT {
      DivMonotone(1008000000, resLsb, 1000000);
    } else {
      var m := Div10Round(resLsb);
      assert m <= 15907286277;
      assert Div10Iter(resLsb, 6) == Div10Iter(m, 5);
      DivMonotone(429496728, m, 100000);
    }
  }

  // ---------------------------------------------------------------------
  // Reference-ratio / predivider search
  // ---------------------------------------------------------------------

  /** A reference divider ratio `R` with a predivider shift `Premain`. */
  datatype Divider = Divider(ratio: nat, premain: nat)

  /** The pairs the search can settle on, in the order in which it prefers them. */
  const Candidates: seq<Divider> :=
    [Divider(1, 1), Divider(1, 0), Divider(1, 2), Divider(3, 2), Divider(3, 1)]

  /** `Nint = (v15 * R) >> Premain`. */
  function Nint(v15: nat, d: Divider): nat
  {
    Shr(v15 * d.ratio, d.premain)
  }

  predicate NintInRange(n: nat)
  {
    131 <= n <= 251
  }

  /** The first candidate whose integer divider falls in [131, 251]. */
  function FirstFit(v15: nat, cs: seq<Divider>): (r: Option<Divider>)
    ensures r.Some? ==> r.value in cs && NintInRange(Nint(v15, r.value))
    ensures r.None? ==> forall c :: c in cs ==> !NintInRange(Nint(v15, c))
  {
    if cs == [] then None
    else if NintInRange(Nint(v15, cs[0])) then Some(cs[0])
    else FirstFit(v15, cs[1..])
  }

  /** The outcome of the search, range by range: it fails exactly for v15 < 88,
      504 <= v15 <= 523 and v15 >= 1008. */
  lemma SearchTable(v15: nat)
    ensures FirstFit(v15, Candidates) ==
      if 88 <= v15 <= 130 then Some(Divider(3, 1))
      else if 131 <= v15 <= 251 then Some(Divider(1, 0))
      else if 252 <= v15 <= 261 then Some(Divider(3, 2))
      else if 262 <= v15 <= 503 then Some(Divider(1, 1))
      else if 524 <= v15 <= 1007 then Some(Divider(1, 2))
      else None
    ensures FirstFit(v15, Candidates).None? <==> v15 < 88 || 504 <= v15 <= 523 || v15 >= 1008
  {
    var cs := Candidates;
    ShrSmall(v15);
    ShrSmall(3 * v15);
    assert Nint(v15, cs[0]) == v15 / 2;
    assert Nint(v15, cs[1]) == v15;
    assert Nint(v15, cs[2]) == v15 / 4;
    assert Nint(v15, cs[3]) == 3 * v15 / 4;
    assert Nint(v15, cs[4]) == 3 * v15 / 2;
    var f4 := FirstFit(v15, cs[4..]);
    assert cs[4..][1..] == [];
    assert f4 == if NintInRange(3 * v15 / 2) then Some(cs[4]) else None;
    assert cs[3..][1..] == cs[4..];
    var f3 := FirstFit(v15, cs[3..]);
    assert f3 == if NintInRange(3 * v15 / 4) then Some(cs[3]) else f4;
    assert cs[2..][1..] == cs[3..];
    var f2 := FirstFit(v15, cs[2..]);
    assert f2 == if NintInRange(v15 / 4) then Some(cs[2]) else f3;
    assert cs[1..][1..] == cs[2..];
    var f1 := FirstFit(v15, cs[1..]);
    assert f1 == if NintInRange(v15) then Some(cs[1]) else f2;
    assert FirstFit(v15, cs) == if NintInRange(v15 / 2) then Some(cs[0]) else f1;
  }

  /** The goto-based search of `tda2014x_tune`: starting from R = 1, Premain = 1 it
      adjusts the pair and, on the paths that reach the final label, rejects an
      integer divider outside [131, 251]. */
  method SearchDivider(v15: nat) returns (res: Option<Divider>, nint: nat)
    ensures res == FirstFit(v15, Candidates)
    ensures res.Some? ==> nint == Nint(v15, res.value) && NintInRange(nint)
  {
    var r, premain := 1, 1;
    nint := Shr(v15 * r, premain);
    var atLabel := false;
    if nint < 131 {
      premain := 0;
      nint := Shr(v15 * r, premain);
      if nint > 251 {
        r, premain := 3, 2;
        atLabel := true;
      } else if nint < 131 {
        r, premain := 3, 1;
        atLabel := true;
      }
    } else if nint > 251 {
      premain := 2;
      nint := Shr(v15 * r, premain);
      if nint > 251 {
        r, premain := 3, 2;
      }
      atLabel := true;
    }
    if atLabel {
      nint := Shr(v15 * r, premain);
      if nint < 131 || nint > 251 {
        SearchTable(v15);
        ShrSmall(v15);
        ShrSmall(3 * v15);
        return None, nint;
      }
    }
    SearchTable(v15);
    ShrSmall(v15);
    ShrSmall(3 * v15);
    res := Some(Divider(r, premain));
  }

  // ---------------------------------------------------------------------
  // The percentage switch and the integer / fraction split
  // ---------------------------------------------------------------------

  /** `(100 * R) >> Premain`. */
  function Percent(d: Divider): (r: nat)
    ensures d in Candidates ==> r in {25, 50, 75, 100, 150}
  {
    ShrSmall(100);
    ShrSmall(300);
    Shr(100 * d.ratio, d.premain)
  }

  /** The switch on the percentage: `kint` for the five exact cases, `None` for the
      `-ERANGE` default. */
  function ScaleKint(resLsb: nat, percent: nat): (r: Option<nat>)
    ensures r.Some? <==> percent in {25, 50, 75, 100, 150}
    ensures r.Some? ==> resLsb * percent / 100 - 1 <= r.value <= resLsb * percent / 100
  {
    match percent
    case 25 => Some(resLsb / 4)
    case 50 => Some(resLsb / 2)
    case 75 => Some(resLsb / 2 + resLsb / 4)
    case 100 => Some(resLsb)
    case 150 => Some(resLsb / 2 + resLsb)
    case _ => None
  }

  /** Every candidate pair has a percentage in {25, 50, 75, 100, 150}, so the default
      branch of the switch is unreachable, and `kint` is ResLsb * R / 2^Premain up to
      one unit of truncation. */
  lemma KintScalesReference(resLsb: nat, d: Divider)
    requires d in Candidates
    ensures Percent(d) in {25, 50, 75, 100, 150}
    ensures ScaleKint(resLsb, Percent(d)).Some?
    ensures var k := ScaleKint(resLsb, Percent(d)).value;
            Shr(resLsb * d.ratio, d.premain) - 1 <= k <= Shr(resLsb * d.ratio, d.premain)
  {
    ShrSmall(100);
    ShrSmall(300);
    ShrSmall(resLsb);
    ShrSmall(3 * resLsb);
    if d.ratio == 3 {
      assert 3 * resLsb / 4 - 1 <= resLsb / 2 + resLsb / 4 <= 3 * resLsb / 4;
      assert 3 * resLsb / 2 - 1 <= resLsb / 2 + resLsb <= 3 * resLsb / 2;
    }
  }

  lemma MillionsOfQuarter(resLsb: nat)
    ensures resLsb / 4 / 1000000 == resLsb / 1000000 / 4
  {
    DivDiv(resLsb, 4, 1000000);
    DivDiv(resLsb, 1000000, 4);
  }

  lemma MillionsOfHalf(resLsb: nat)
    ensures resLsb / 2 / 1000000 == resLsb / 1000000 / 2
  {
    DivDiv(resLsb, 2, 1000000);
    DivDiv(resLsb, 1000000, 2);
  }

  lemma MillionsOfThreeQuarters(resLsb: nat)
    ensures var v := resLsb / 1000000;
            3 * v / 4 <= (resLsb / 2 + resLsb / 4) / 1000000 <= 3 * v / 4 + 1
  {
    var v, rho := resLsb / 1000000, resLsb % 1000000;
    var a, b := v / 4, v % 4;
    assert resLsb == 4000000 * a + 1000000 * b + rho;
    assert resLsb / 2 == 2000000 * a + 500000 * b + rho / 2;
    assert resLsb / 4 == 1000000 * a + 250000 * b + rho / 4;
    assert 3 * v / 4 == 3 * a + 3 * b / 4;
  }

  lemma MillionsOfThreeHalves(resLsb: nat)
    ensures var v := resLsb / 1000000;
            3 * v / 2 <= (resLsb / 2 + resLsb) / 1000000 <= 3 * v / 2 + 1
  {
    var v, rho := resLsb / 1000000, resLsb % 1000000;
    var a, b := v / 2, v % 2;
    assert resLsb == 2000000 * a + 1000000 * b + rho;
    assert resLsb / 2 == 1000000 * a + 500000 * b + rho / 2;
    assert 3 * v / 2 == 3 * a + 3 * b / 2;
  }

  lemma MillionsOfTens(k: nat)
    ensures k / 10 * 10 / 1000000 == k / 1000000
  {
  }

  /** After rounding kint down to a multiple of ten, its millions are Nint or Nint + 1. */
  lemma IntegerPartNearNint(resLsb: nat, d: Divider)
    requires d in Candidates
    ensures ScaleKint(resLsb, Percent(d)).Some?
    ensures var kint := ScaleKint(resLsb, Percent(d)).value / 10 * 10;
            Nint(resLsb / 1000000, d) <= kint / 1000000 <= Nint(resLsb / 1000000, d) + 1
  {
    KintScalesReference(resLsb, d);
    var v15 := resLsb / 1000000;
    ShrSmall(v15);
    ShrSmall(3 * v15);
    var k := ScaleKint(resLsb, Percent(d)).value;
    MillionsOfTens(k);
    if d == Divider(1, 1) {
      assert k == resLsb / 2 && Nint(v15, d) == v15 / 2;
      MillionsOfHalf(resLsb);
    } else if d == Divider(1, 0) {
      assert k == resLsb && Nint(v15, d) == v15;
    } else if d == Divider(1, 2) {
      assert k == resLsb / 4 && Nint(v15, d) == v15 / 4;
      MillionsOfQuarter(resLsb);
    } else if d == Divider(3, 2) {
      assert k == resLsb / 2 + resLsb / 4 && Nint(v15, d) == 3 * v15 / 4;
      MillionsOfThreeQuarters(resLsb);
    } else {
      assert k == resLsb / 2 + resLsb && Nint(v15, d) == 3 * v15 / 2;
      MillionsOfThreeHalves(resLsb);
    }
  }

  // ---------------------------------------------------------------------
  // The fraction scaling loop
  // ---------------------------------------------------------------------

  lemma Pow2Monotone(i: nat, j: nat)
    requires i <= j
    ensures Pow2(i) <= Pow2(j)
    decreases j
  {
    if i < j {
      Pow2Monotone(i, j - 1);
    }
  }

  lemma DoublingKeepsBound(before: nat, k: nat, frac0: nat, i: nat)
    requires before * Pow10(k) <= frac0 * Pow2(i)
    ensures (2 * before) * Pow10(k) <= frac0 * Pow2(i + 1)
  {
    var p, q := Pow10(k), Pow2(i);
    assert (2 * before) * p == 2 * (before * p);
    assert frac0 * Pow2(i + 1) == 2 * (frac0 * q);
  }

  lemma ReductionKeepsBound(doubled: nat, k: nat, bound: nat)
    requires doubled * Pow10(k) <= bound
    ensures (doubled / 10) * Pow10(k + 1) <= bound
  {
    var p := Pow10(k);
    MulMonotone(p, 10 * (doubled / 10), doubled);
    assert (doubled / 10) * Pow10(k + 1) == p * (10 * (doubled / 10));
  }

  /** A fourth reduction would need a 28-bit value after at most fifteen doublings of
      a fraction below one million, divided by 1000. */
  lemma NoFourthReduction(doubled: nat, frac0: nat, i: nat)
    requires frac0 < 1000000 && i <= 14 && doubled > 0xFFF_FFFF
    ensures doubled * Pow10(3) > frac0 * Pow2(i + 1)
  {
    Pow2Monotone(i + 1, 15);
    MulMonotone(frac0, Pow2(i + 1), Pow2(15));
    MulMonotone(Pow2(15), frac0, 999999);
    assert Pow10(3) == 1000 && Pow2(15) == 32768;
  }

  /** Doubling both the value and the exact product keeps the accumulated
      truncation error (scaled by 2^28) within the same multiple of the product. */
  lemma DoublingKeepsError(before: nat, k: nat, frac0: nat, i: nat, r: nat)
    requires (frac0 * Pow2(i) - before * Pow10(k)) * 0x1000_0000 <= 9 * r * (frac0 * Pow2(i))
    ensures (frac0 * Pow2(i + 1) - (2 * before) * Pow10(k)) * 0x1000_0000
            <= 9 * r * (frac0 * Pow2(i + 1))
  {
    var a := frac0 * Pow2(i);
    assert Pow2(i + 1) == 2 * Pow2(i);
    Twice(frac0, Pow2(i));
    Twice(before, Pow10(k));
    Twice(9 * r, a);
  }

  lemma Twice(x: int, y: int)
    ensures x * (2 * y) == 2 * (x * y) && (2 * x) * y == 2 * (x * y)
  {
  }

  /** A division by ten loses at most 9 * 10^k, and since it only happens above
      2^28 that loss is at most 9 / 2^28 of the exact product. */
  lemma ReductionKeepsError(doubled: nat, k: nat, x: nat, r: nat)
    requires doubled > 0xFFF_FFFF
    requires doubled * Pow10(k) <= x
    requires (x - doubled * Pow10(k)) * 0x1000_0000 <= 9 * r * x
    ensures (x - (doubled / 10) * Pow10(k + 1)) * 0x1000_0000 <= 9 * (r + 1) * x
  {
    var p, q := Pow10(k), doubled / 10;
    assert q * Pow10(k + 1) == p * (10 * q);
    MulMonotone(p, doubled - 10 * q, 9);
    assert doubled * p - p * (10 * q) == p * (doubled - 10 * q);
    MulMonotone(p, 0x1000_0000, doubled);
    assert 9 * (r + 1) * x == 9 * r * x + 9 * x;
  }

  /** The fraction loop as a function of its state: the value, `CalcPow` and the
      number of passes done. */
  function FractionLoop(frac: nat, calcPow: int, i: nat): (r: (nat, int))
    ensures var steps := if i < 16 then 16 - i else 0;
            calcPow - steps <= r.1 <= calcPow
    ensures r.1 == calcPow ==> r.0 == frac * Pow2(if i < 16 then 16 - i else 0)
    decreases 16 - i
  {
    if i >= 16 then (frac, calcPow)
    else if 2 * frac > 0xFFF_FFFF && i != 15 then FractionLoop(Div10Iter(2 * frac, 1), calcPow - 1, i + 1)
    else
      DoubledPow2(frac, 15 - i);
      FractionLoop(2 * frac, calcPow, i + 1)
  }

  lemma DoubledPow2(x: nat, k: nat)
    ensures x * Pow2(k + 1) == 2 * x * Pow2(k)
  {
    assert Pow2(k + 1) == 2 * Pow2(k);
  }

  /** The loop state after `i` passes approximates frac0 * 2^i / 10^(6 - calcPow)
      from below, with an error of at most 9 / 2^28 of the exact product for each
      reduction done so far. */
  ghost predicate Tracks(frac0: nat, frac: nat, calcPow: nat, i: nat)
    requires calcPow <= 6
  {
    && frac * Pow10(6 - calcPow) <= frac0 * Pow2(i)
    && (frac0 * Pow2(i) - frac * Pow10(6 - calcPow)) * 0x1000_0000
       <= 9 * (6 - calcPow) * (frac0 * Pow2(i))
  }

  /** A pass without a reduction keeps both bounds. */
  lemma DoublingPass(frac0: nat, frac: nat, calcPow: nat, i: nat)
    requires calcPow <= 6
    requires Tracks(frac0, frac, calcPow, i)
    ensures Tracks(frac0, frac * 2, calcPow, i + 1)
  {
    DoublingKeepsBound(frac, 6 - calcPow, frac0, i);
    DoublingKeepsError(frac, 6 - calcPow, frac0, i, 6 - calcPow);
  }

  /** A pass with a reduction keeps both bounds, with one more reduction counted;
      it never happens a fourth time. */
  lemma ReductionPass(frac0: nat, frac: nat, calcPow: nat, i: nat)
    requires frac0 < 1000000 && i < 15 && 3 <= calcPow <= 6 && frac * 2 > 0xFFF_FFFF
    requires Tracks(frac0, frac, calcPow, i)
    ensures 3 < calcPow
    ensures Tracks(frac0, frac * 2 / 10, calcPow - 1, i + 1)
  {
    DoublingPass(frac0, frac, calcPow, i);
    if calcPow == 3 {
      NoFourthReduction(frac * 2, frac0, i);
      assert false;
    }
    var k := 6 - calcPow;
    assert 6 - (calcPow - 1) == k + 1;
    ReductionKeepsBound(frac * 2, k, frac0 * Pow2(i + 1));
    ReductionKeepsError(frac * 2, k, frac0 * Pow2(i + 1), k);
  }

  /** One pass of the fraction loop: double, then divide by ten when the value has
      outgrown 28 bits, except on the last pass. */
  method FractionPass(frac0: nat, frac: nat, calcPow: nat, i: nat) returns (frac': nat, calcPow': nat)
    requires frac0 < 1000000 && i < 16 && 3 <= calcPow <= 6 && frac <= 0xFFF_FFFF
    requires Tracks(frac0, frac, calcPow, i)
    ensures 3 <= calcPow' <= 6
    ensures FractionLoop(frac', calcPow', i + 1) == FractionLoop(frac, calcPow, i)
    ensures Tracks(frac0, frac', calcPow', i + 1)
    ensures i + 1 < 16 ==> frac' <= 0xFFF_FFFF
    ensures frac' < 0x2000_0000
  {
    frac', calcPow' := frac * 2, calcPow;
    if frac' > 0xFFF_FFFF && i != 15 {
      ReductionPass(frac0, frac, calcPow, i);
      frac' := Div10(frac', 1);
      assert Pow10(1) == 10;
      calcPow' := calcPow - 1;
    } else {
      DoublingPass(frac0, frac, calcPow, i);
    }
  }

  /** The loop that doubles `DsmFracInReg` sixteen times, dividing it by ten (and
      decrementing `CalcPow`) whenever it exceeds 28 bits, except on the last pass.
      For a fraction below one million at most three reductions happen, and the value
      stays within 6592 below the fraction times 2^16 / 10^(6 - CalcPow). */
  method ScaleFraction(frac0: nat) returns (frac: nat, calcPow: nat)
    requires frac0 < 1000000
    ensures FractionLoop(frac0, 6, 0) == (frac, calcPow as int)
    ensures 3 <= calcPow <= 6
    ensures frac * Pow10(6 - calcPow) <= frac0 * 65536 < frac * Pow10(6 - calcPow) + 6592
    ensures frac < 0x2000_0000
  {
    frac, calcPow := frac0, 6;
    var i := 0;
    while i < 16
      invariant 0 <= i <= 16 && 3 <= calcPow <= 6
      invariant FractionLoop(frac, calcPow, i) == FractionLoop(frac0, 6, 0)
      invariant Tracks(frac0, frac, calcPow, i)
      invariant i < 16 ==> frac <= 0xFFF_FFFF
      invariant frac < 0x2000_0000
    {
      frac, calcPow := FractionPass(frac0, frac, calcPow, i);
      i := i + 1;
    }
    FinalError(frac0, frac, calcPow);
  }

  /** After sixteen passes and at most three reductions the accumulated error is at
      most 27 * frac0 / 2^12, below 6592. */
  lemma FinalError(frac0: nat, frac: nat, calcPow: nat)
    requires frac0 < 1000000 && 3 <= calcPow <= 6
    requires Tracks(frac0, frac, calcPow, 16)
    ensures frac * Pow10(6 - calcPow) <= frac0 * 65536 < frac * Pow10(6 - calcPow) + 6592
  {
    assert Pow2(4) == 16 && Pow2(8) == 256 && Pow2(12) == 4096;
    assert Pow2(16) == 65536;
    MulMonotone(frac0 * 65536, 6 - calcPow, 3);
  }

  // ---------------------------------------------------------------------
  // The whole synthesiser computation
  // ---------------------------------------------------------------------

  /** The register values the tuner programs for one frequency: the divider pair
      chosen, its integer divider, the values written to reg 3 (`ePllRefClkRatio`),
      0x1A (`PredividerRatio`), 0x1E (`DsmIntInReg - 128`) and 0x1F/0x20
      (`div10(DsmFracInReg, CalcPow)`), with the rounded kint they derive from and
      the shift count used. */
  datatype PllSetting = PllSetting(
    divider: Divider, nint: nat, refClkRatio: nat, predivider: nat,
    kint: nat, dsmInt: nat, intReg: nat, calcPow: nat, fracReg: nat)

  /** On a successful search the reference value lies in the exact range of `div10`,
      so v15 is ResLsb / 10^6 and kint stays below 2^32. */
  lemma SuccessfulSearch(resLsb: nat, d: Divider)
    requires resLsb <= 159072862777
    requires FirstFit(Div10Iter(resLsb, 6), Candidates) == Some(d)
    ensures resLsb < 1008000000
    ensures Div10Iter(resLsb, 6) == resLsb / 1000000
    ensures d in Candidates && NintInRange(Nint(resLsb / 1000000, d))
    ensures ScaleKint(resLsb, Percent(d)).Some?
    ensures ScaleKint(resLsb, Percent(d)).value < 1512000000
  {
    SearchTable(Div10Iter(resLsb, 6));
    if resLsb >= 1008000000 {
      V15Large(resLsb);
    }
    assert Pow10(6) == 1000000;
    KintScalesReference(resLsb, d);
    ShrSmall(3 * resLsb);
  }

  /** The arithmetic of `tda2014x_tune` from the frequency in kHz to the values
      written to the PLL registers, or `-ERANGE`. */
  method ComputePll(f: u32) returns (res: Result<PllSetting>)
    ensures var v15 := V15(f);
            res.Err? <==> v15 < 88 || 504 <= v15 <= 523 || v15 >= 1008
    ensures res.Err? ==> res.errno == -ERANGE
    ensures res.Ok? ==>
              var s := res.value;
              var v15 := RefUnits(f) / 1000000;
              && V15(f) == v15
              && FirstFit(v15, Candidates) == Some(s.divider)
              && s.nint == Nint(v15, s.divider) && NintInRange(s.nint)
              && s.refClkRatio == (if s.divider.ratio == 3 then 2 else 0)
              && s.predivider == (if s.divider.premain == 1 then 0 else 1)
              && ScaleKint(RefUnits(f), Percent(s.divider)).Some?
              && s.kint == ScaleKint(RefUnits(f), Percent(s.divider)).value / 10 * 10
              && s.dsmInt == s.kint / 1000000
              && s.nint <= s.dsmInt <= s.nint + 1
              && s.intReg == s.dsmInt - 128 && 3 <= s.intReg < 256
              && 3 <= s.calcPow <= 6
              && s.fracReg < 65536
              && (var exact := s.kint % 1000000 * 65536 / 1000000;
                  exact - 1 <= s.fracReg <= exact)
              && FractionLoop(s.kint % 1000000, 6, 0).1 == s.calcPow
              && s.fracReg == Div10Iter(FractionLoop(s.kint % 1000000, 6, 0).0, s.calcPow)
  {
    var i := BandIndex(f);
    var resLsb := ((8 - i) * f % TWO_32) * 1000 / 27;
    assert resLsb == RefUnits(f);
    var v15 := Div10(resLsb, 6);
    var divider, nint := SearchDivider(v15);
    SearchTable(v15);
    if divider.None? {
      return Err(-ERANGE);
    }
    SuccessfulSearch(resLsb, divider.value);
    var s := Settle(resLsb, divider.value, nint);
    res := Ok(s);
  }

  /** The registers derived from a successful search: the percentage switch, the
      rounding of kint to a multiple of 10 and the integer / fraction split. */
  method Settle(resLsb: nat, d: Divider, nint: nat) returns (s: PllSetting)
    requires resLsb <= 159072862777
    requires FirstFit(Div10Iter(resLsb, 6), Candidates) == Some(d)
    requires nint == Nint(resLsb / 1000000, d)
    ensures var v15 := resLsb / 1000000;
            && s.divider == d
            && s.nint == Nint(v15, d) && NintInRange(s.nint)
            && s.refClkRatio == (if d.ratio == 3 then 2 else 0)
            && s.predivider == (if d.premain == 1 then 0 else 1)
            && ScaleKint(resLsb, Percent(d)).Some?
            && s.kint == ScaleKint(resLsb, Percent(d)).value / 10 * 10
            && s.dsmInt == s.kint / 1000000
            && s.nint <= s.dsmInt <= s.nint + 1
            && s.intReg == s.dsmInt - 128 && 3 <= s.intReg < 256
            && 3 <= s.calcPow <= 6
            && s.fracReg < 65536
            && (var exact := s.kint % 1000000 * 65536 / 1000000;
                exact - 1 <= s.fracReg <= exact)
            && FractionLoop(s.kint % 1000000, 6, 0).1 == s.calcPow
            && s.fracReg == Div10Iter(FractionLoop(s.kint % 1000000, 6, 0).0, s.calcPow)
  {
    SuccessfulSearch(resLsb, d);
    assert NintInRange(nint);
    assert d.ratio == 1 || d.ratio == 3;
    IntegerPartNearNint(resLsb, d);
    var scaled := ScaleKint(resLsb, Percent(d)).value;
    var tens := Div10(scaled, 1);
    assert Pow10(1) == 10;
    var kint := tens * 10;
    var refClkRatio := if d.ratio == 2 then 1 else if d.ratio == 3 then 2 else 0;
    var predivider := if d.premain == 1 then 0 else 1;
    var dsmInt, calcPow, fracReg := SplitKint(kint);
    s := PllSetting(d, nint, refClkRatio, predivider, kint, dsmInt, dsmInt - 128, calcPow, fracReg);
  }

  /**
   * The split of `kint` into its millions (`DsmInt`) and its fractional part in
   * millionths, scaled to 2^16 units: the fraction loop followed by a division
   * by 10^calcPow.
   */
  method SplitKint(kint: u32) returns (dsmInt: nat, calcPow: nat, fracReg: nat)
    ensures dsmInt == kint / 1000000
    ensures FractionLoop(kint % 1000000, 6, 0).1 == calcPow && 3 <= calcPow <= 6
    ensures fracReg == Div10Iter(FractionLoop(kint % 1000000, 6, 0).0, calcPow)
    ensures kint % 1000000 * 65536 / 1000000 - 1 <= fracReg <= kint % 1000000 * 65536 / 1000000
    ensures fracReg < 65536
  {
    dsmInt := Div10(kint, 6);
    assert Pow10(6) == 1000000;
    var frac0 := kint - 1000000 * dsmInt;
    assert frac0 == kint % 1000000;
    var frac;
    frac, calcPow := ScaleFraction(frac0);
    fracReg := Div10(frac, calcPow);
    FractionFits(frac0, frac, calcPow, fracReg);
  }

  /** The final fraction register value is the fraction times 2^16 / 10^6, rounded
      down and possibly one less, so it fits the 16-bit field at 0x1F/0x20. */
  lemma FractionFits(frac0: nat, frac: nat, calcPow: nat, fracReg: nat)
    requires frac0 < 1000000 && 3 <= calcPow <= 6
    requires frac * Pow10(6 - calcPow) <= frac0 * 65536 < frac * Pow10(6 - calcPow) + 6592
    requires fracReg == frac / Pow10(calcPow)
    ensures frac0 * 65536 / 1000000 - 1 <= fracReg <= frac0 * 65536 / 1000000
    ensures fracReg < 65536
  {
    assert fracReg * 1000000 <= frac0 * 65536 < fracReg * 1000000 + 1006592 by {
      assert Pow10(0) == 1 && Pow10(1) == 10 && Pow10(2) == 100 && Pow10(3) == 1000;
      assert Pow10(4) == 10000 && Pow10(5) == 100000 && Pow10(6) == 1000000;
      if calcPow == 3 {
        assert fracReg * 1000 <= frac < fracReg * 1000 + 1000;
      } else if calcPow == 4 {
        assert fracReg * 10000 <= frac < fracReg * 10000 + 10000;
      } else if calcPow == 5 {
        assert fracReg * 100000 <= frac < fracReg * 100000 + 100000;
      } else {
        assert fracReg * 1000000 <= frac < fracReg * 1000000 + 1000000;
      }
    }
  }

  // ---------------------------------------------------------------------
  // The satellite band
  // ---------------------------------------------------------------------

  /**
   * Every frequency of the satellite IF band 1049480..3224000 kHz gives
   * v15 in 254..477, where the divider search always succeeds.
   */
  lemma {:induction false} SatelliteBandAccepted(f: u32)
    requires 1049480 <= f <= 3224000
    ensures 254 <= V15(f) <= 477
    ensures FirstFit(V15(f), Candidates).Some?
  {
    var i := BandIndex(f);
    var product := (8 - i) * f;
    assert 6880000 < product <= 12896000 by {
      if i == 0 { assert product == 8 * f; }
      else if i == 1 { assert product == 7 * f; }
      else if i == 2 { assert product == 6 * f; }
      else if i == 3 { assert product == 5 * f; }
      else { assert product == 4 * f && f > 1720000; }
    }
    assert product % TWO_32 == product;
    var resLsb := RefUnits(f);
    assert resLsb == product * 1000 / 27;
    assert 254000000 <= resLsb < 478000000;
    assert Pow10(6) == 1000000;
    SearchTable(V15(f));
  }
}
