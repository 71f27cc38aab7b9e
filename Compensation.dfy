/** The integer prefix of the MS5611 first-order compensation: the precomputed constants
    OFF_C2 and SENS_C1, the temperature difference dT, and the offset OFF and sensitivity
    SENS.

    The driver computes OFF and SENS in `double` and stores them into `int64_t`. Every
    quantity involved is a dyadic rational whose numerator stays below 2^53, so the
    floating-point operations are exact; the model therefore evaluates the expressions over
    `real` and applies the truncation toward zero that the store into an integer performs.
    `OffsetBounds` and `SensitivityBounds` prove the 2^53 bounds. */
module Compensation {

  const TwoPow24 := 0x100_0000
  const TwoPow31 := 0x8000_0000
  const TwoPow32 := 0x1_0000_0000
  const TwoPow53 := 0x20_0000_0000_0000
  const TwoPow63 := 0x8000_0000_0000_0000

  predicate IsInt32(x: int) { -TwoPow31 <= x < TwoPow31 }
  predicate IsInt64(x: int) { -TwoPow63 <= x < TwoPow63 }

  /** `pow(2, n)`; for the exponents used here it is exact in `double`. */
  function Pow2(n: nat): (r: nat)
    ensures r >= 1
  {
    if n == 0 then 1 else 2 * Pow2(n - 1)
  }

  /** The 32 bits of an unsigned value read back as a two's-complement `int32_t`. */
  function Int32Of(u: int): (r: int)
    requires 0 <= u < TwoPow32
    ensures IsInt32(r)
    ensures (r - u) % TwoPow32 == 0
  {
    if u < TwoPow31 then u else u - TwoPow32
  }

  /** Conversion of a `double` to an integer type: truncation toward zero. */
  function TruncReal(x: real): (n: int)
    ensures 0.0 <= x ==> n as real <= x < n as real + 1.0
    ensures x < 0.0 ==> n as real - 1.0 < x <= n as real
  {
    if x >= 0.0 then x.Floor else -((-x).Floor)
  }

  /** Integer division rounding toward zero, as C does; Dafny's own `/` rounds toward
      negative infinity for a negative dividend and a positive divisor. */
  function TruncDiv(a: int, d: int): (q: int)
    requires d > 0
    ensures 0 <= a ==> 0 <= q * d <= a < q * d + d
    ensures a < 0 ==> q * d - d < a <= q * d <= 0
  {
    if a >= 0 then
      NonNegativeQuotient(a, d);
      a / d
    else
      NonNegativeQuotient(-a, d);
      NegatedProduct((-a) / d, d);
      -((-a) / d)
  }

  lemma NonNegativeQuotient(a: int, d: int)
    requires 0 <= a && 0 < d
    ensures 0 <= a / d * d <= a < a / d * d + d
  {
    assert a == a / d * d + a % d;
  }

  lemma NegatedProduct(m: int, d: int)
    ensures -m * d == -(m * d)
  {
  }

  /** OFF_C2 = C2 * 2^16, the offset at the reference temperature. */
  function OffC2(c2: int): int { c2 * 0x1_0000 }

  /** SENS_C1 = C1 * 2^15, the sensitivity at the reference temperature. */
  function SensC1(c1: int): int { c1 * 0x8000 }

  /** dT = D2 - C5 * 2^8: raw temperature minus the reference temperature. */
  function DeltaT(rawTemperature: int, c5: int): int { rawTemperature - c5 * 0x100 }

  /** OFF = OFF_C2 + dT * C4 / 2^7, rounded toward zero as a whole. */
  function Offset(offC2: int, dT: int, c4: int): int
  {
    TruncDiv(offC2 * 0x80 + dT * c4, 0x80)
  }

  /** SENS = SENS_C1 + dT * C3 / 2^8, rounded toward zero as a whole. */
  function Sensitivity(sensC1: int, dT: int, c3: int): int
  {
    TruncDiv(sensC1 * 0x100 + dT * c3, 0x100)
  }

  /** `OFF_C2 + (dT * C4) / pow(2, 7)` evaluated in `double` and stored into `int64_t`. */
  function OffsetByQuotient(offC2: int, dT: int, c4: int): int
  {
    TruncReal(offC2 as real + (dT * c4) as real / Pow2(7) as real)
  }

  /** `OFF_C2 + (dT * C4) * 0.0078125` evaluated in `double` and stored into `int64_t`. */
  function OffsetByReciprocal(offC2: int, dT: int, c4: int): int
  {
    TruncReal(offC2 as real + (dT * c4) as real * 0.0078125)
  }

  /** `SENS_C1 + (dT * C3) / pow(2, 8)` evaluated in `double` and stored into `int64_t`. */
  function SensitivityByQuotient(sensC1: int, dT: int, c3: int): int
  {
    TruncReal(sensC1 as real + (dT * c3) as real / Pow2(8) as real)
  }

  /** `SENS_C1 + (dT * C3) * 0.00390625` evaluated in `double` and stored into `int64_t`. */
  function SensitivityByReciprocal(sensC1: int, dT: int, c3: int): int
  {
    TruncReal(sensC1 as real + (dT * c3) as real * 0.00390625)
  }

  /** `C[2] * pow(2, 16)`, evaluated in `double` and stored into `int64_t`. */
  function OffC2ByPow(c2: int): int
  {
    TruncReal(c2 as real * Pow2(16) as real)
  }

  /** `C[1] * pow(2, 15)`, evaluated in `double` and stored into `int64_t`. */
  function SensC1ByPow(c1: int): int
  {
    TruncReal(c1 as real * Pow2(15) as real)
  }

  /** The powers of two the driver obtains from `pow`. */
  lemma Pow2Values()
    ensures Pow2(7) == 0x80 && Pow2(8) == 0x100 && Pow2(15) == 0x8000 && Pow2(16) == 0x1_0000
  {
  }

  /** The precomputed constants, `C[2] * pow(2, 16)` and `C[1] * pow(2, 15)` stored into
      `int64_t`, are the exact products: no rounding happens. */
  lemma PrecomputedConstantsExact(c1: int, c2: int)
    requires 0 <= c1 < 0x1_0000 && 0 <= c2 < 0x1_0000
    ensures OffC2ByPow(c2) == OffC2(c2)
    ensures SensC1ByPow(c1) == SensC1(c1)
    ensures 0 <= OffC2(c2) < TwoPow32 && 0 <= SensC1(c1) < TwoPow31
  {
    Pow2Values();
  }

  /** Adding an unsigned 32-bit value to an `int32_t` wraps modulo 2^32 and the sum is read
      back as `int32_t`; when the true sum fits in 32 signed bits, nothing is lost. */
  lemma WrappingAddExact(x: int, y: int)
    requires IsInt32(x) && 0 <= y < TwoPow32 && IsInt32(x + y)
    ensures Int32Of((x % TwoPow32 + y) % TwoPow32) == x + y
  {
    if x >= 0 {
      assert x % TwoPow32 == x;
      assert (x + y) % TwoPow32 == x + y;
    } else {
      assert x % TwoPow32 == x + TwoPow32;
      if x + y >= 0 {
        assert (x + TwoPow32 + y) % TwoPow32 == x + y;
      } else {
        assert (x + TwoPow32 + y) % TwoPow32 == x + y + TwoPow32;
      }
    }
  }

  /** Truncating a quotient by a positive power of two computed over the reals gives C's
      integer division toward zero. */
  lemma TruncQuotient(a: int, d: int)
    requires d == 0x80 || d == 0x100
    ensures TruncReal(a as real / d as real) == TruncDiv(a, d)
  {
    var x := a as real / d as real;
    var n := TruncReal(x);
    var q := TruncDiv(a, d);
    assert x * d as real == a as real;
    if a >= 0 {
      assert n * d <= a < n * d + d;
    } else {
      assert n * d - d < a <= n * d;
    }
  }

  /** Both spellings of OFF in the driver, division by `pow(2, 7)` and multiplication by
      0.0078125 (exactly 2^-7), equal the exact quotient rounded toward zero. */
  lemma OffsetForms(offC2: int, dT: int, c4: int)
    ensures OffsetByQuotient(offC2, dT, c4) == Offset(offC2, dT, c4)
    ensures OffsetByReciprocal(offC2, dT, c4) == Offset(offC2, dT, c4)
  {
    Pow2Values();
    var a := offC2 * 0x80 + dT * c4;
    assert offC2 as real + (dT * c4) as real / 128.0 == a as real / 128.0;
    assert offC2 as real + (dT * c4) as real * 0.0078125 == a as real / 128.0;
    TruncQuotient(a, 0x80);
  }

  /** Both spellings of SENS in the driver, division by `pow(2, 8)` and multiplication by
      0.00390625 (exactly 2^-8), equal the exact quotient rounded toward zero. */
  lemma SensitivityForms(sensC1: int, dT: int, c3: int)
    ensures SensitivityByQuotient(sensC1, dT, c3) == Sensitivity(sensC1, dT, c3)
    ensures SensitivityByReciprocal(sensC1, dT, c3) == Sensitivity(sensC1, dT, c3)
  {
    Pow2Values();
    var a := sensC1 * 0x100 + dT * c3;
    assert sensC1 as real + (dT * c3) as real / 256.0 == a as real / 256.0;
    assert sensC1 as real + (dT * c3) as real * 0.00390625 == a as real / 256.0;
    TruncQuotient(a, 0x100);
  }

  /** |a * b| <= A * B when |a| <= A and 0 <= b <= B. */
  lemma ProductBound(a: int, b: int, bigA: int, bigB: int)
    requires -bigA <= a <= bigA && 0 <= b <= bigB
    ensures -(bigA * bigB) <= a * b <= bigA * bigB
  {
    assert -bigA * b <= a * b <= bigA * b;
    assert bigA * b <= bigA * bigB;
  }

  /** For a 24-bit raw temperature and a 16-bit C5, dT lies strictly between -2^24 and 2^24
      and so fits in `int32_t`. */
  lemma DeltaTBounds(rawTemperature: int, c5: int)
    requires 0 <= rawTemperature < TwoPow24 && 0 <= c5 < 0x1_0000
    ensures -TwoPow24 < DeltaT(rawTemperature, c5) < TwoPow24
    ensures IsInt32(DeltaT(rawTemperature, c5))
  {
  }

  /** With 16-bit calibration words and |dT| < 2^24: the 64-bit product dT * C4 stays below
      2^40 in magnitude, the numerator of OFF over 2^-7 stays below 2^53 (so the `double`
      evaluation is exact), and OFF lies in [-2^33, 2^34), well inside `int64_t`. */
  lemma OffsetBounds(c2: int, c4: int, dT: int)
    requires 0 <= c2 < 0x1_0000 && 0 <= c4 < 0x1_0000 && -TwoPow24 < dT < TwoPow24
    ensures -0x100_0000_0000 < dT * c4 < 0x100_0000_0000
    ensures -TwoPow53 < OffC2(c2) * 0x80 + dT * c4 < TwoPow53
    ensures -0x2_0000_0000 <= Offset(OffC2(c2), dT, c4) < 0x4_0000_0000
    ensures IsInt64(Offset(OffC2(c2), dT, c4))
  {
    ProductBound(dT, c4, TwoPow24 - 1, 0xFFFF);
  }

  /** With 16-bit calibration words and |dT| < 2^24: the product dT * C3 stays below 2^40 in
      magnitude, the numerator of SENS over 2^-8 stays below 2^53, and SENS lies in
      [-2^32, 2^33), well inside `int64_t`. */
  lemma SensitivityBounds(c1: int, c3: int, dT: int)
    requires 0 <= c1 < 0x1_0000 && 0 <= c3 < 0x1_0000 && -TwoPow24 < dT < TwoPow24
    ensures -0x100_0000_0000 < dT * c3 < 0x100_0000_0000
    ensures -TwoPow53 < SensC1(c1) * 0x100 + dT * c3 < TwoPow53
    ensures -0x1_0000_0000 <= Sensitivity(SensC1(c1), dT, c3) < 0x2_0000_0000
    ensures IsInt64(Sensitivity(SensC1(c1), dT, c3))
  {
    ProductBound(dT, c3, TwoPow24 - 1, 0xFFFF);
  }

  /** SENS is negative for an extreme raw temperature, and there rounding toward zero and
      Dafny's Euclidean division disagree: the model must use the former. */
  lemma NegativeSensitivity()
    ensures DeltaT(1, 0xFFFF) == -0xFF_FEFF
    ensures Sensitivity(SensC1(0), DeltaT(1, 0xFFFF), 0xFFFF) == -0xFFFD_FF01
    ensures (SensC1(0) * 0x100 + DeltaT(1, 0xFFFF) * 0xFFFF) / 0x100 == -0xFFFD_FF02
  {
  }

  /** The worked example of the MS5611 datasheet: C1..C5 = 40127, 36924, 23317, 23282, 33464
      and D2 = 8569150 give dT = 2366, OFF = 2420281617 and SENS = 1315097036. */
  lemma DatasheetExample()
    ensures DeltaT(8569150, 33464) == 2366
    ensures Offset(OffC2(36924), 2366, 23282) == 2420281617
    ensures Sensitivity(SensC1(40127), 2366, 23317) == 1315097036
  {
  }
}
