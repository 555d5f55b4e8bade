/** `round1` (src/plugins/mod.rs:28-31), over exact reals. */
module Rounding {
  /** `f64::round`: to the nearest whole number, halves away from zero. */
  function Round(x: real): int {
    if x >= 0.0 then (x + 0.5).Floor else -((-x + 0.5).Floor)
  }

  function Round1(x: real): real {
    Round(x * 10.0) as real / 10.0
  }

  lemma RoundMonotone(x: real, y: real)
    requires x <= y
    ensures Round(x) <= Round(y)
  {
    if x >= 0.0 {
      assert (x + 0.5).Floor <= (y + 0.5).Floor;
    } else if y < 0.0 {
      assert (-y + 0.5).Floor <= (-x + 0.5).Floor;
    }
  }

  /** Rounding never reverses an order. */
  lemma Round1Monotone(x: real, y: real)
    requires x <= y
    ensures Round1(x) <= Round1(y)
  {
    RoundMonotone(x * 10.0, y * 10.0);
  }

  /** Values with one decimal are fixed, 0 and 100 among them. */
  lemma Round1Fixes(tenths: int)
    ensures Round1(tenths as real / 10.0) == tenths as real / 10.0
  {
    var x := tenths as real / 10.0;
    assert x * 10.0 == tenths as real;
    if tenths >= 0 {
      assert (tenths as real + 0.5).Floor == tenths;
    } else {
      assert (-(tenths as real) + 0.5).Floor == -tenths;
    }
  }

  lemma RoundsToZeroExactly(x: real)
    requires x >= 0.0
    ensures Round1(x) >= 0.0
    ensures Round1(x) == 0.0 <==> x < 0.05
  {
    var f := (x * 10.0 + 0.5).Floor;
    assert f as real <= x * 10.0 + 0.5 < f as real + 1.0;
    assert Round1(x) == f as real / 10.0;
  }

  /** Rounding moves a value by at most half a tenth. */
  lemma Round1Close(x: real)
    ensures -0.05 <= Round1(x) - x <= 0.05
  {
    if x >= 0.0 {
      var f := (x * 10.0 + 0.5).Floor;
      assert f as real <= x * 10.0 + 0.5 < f as real + 1.0;
    } else {
      var f := (-(x * 10.0) + 0.5).Floor;
      assert f as real <= -(x * 10.0) + 0.5 < f as real + 1.0;
    }
  }

  /** Scaling by a positive factor keeps the sign. */
  lemma ScaledSign(a: real, t: real)
    requires t > 0.0
    ensures a > 0.0 ==> a * t > 0.0
    ensures a <= 0.0 ==> a * t <= 0.0
  {
  }

  /** A quotient compares with a limit as the dividend does with the scaled limit. */
  lemma QuotientAtLeast(x: real, d: real, limit: real)
    requires d > 0.0
    ensures x / d >= limit <==> x >= limit * d
  {
    var q := x / d;
    assert q * d == x;
    assert (limit - q) * d == limit * d - x;
    ScaledSign(limit - q, d);
  }

  lemma QuotientSigns(x: real, d: real)
    requires d != 0.0
    ensures (-x) / d == -(x / d) && (-x) / (-d) == x / d
  {
    assert (x / d) * d == x;
  }

  /** The same for any divisor: a negative one turns the comparison round. */
  lemma QuotientCompares(x: real, d: real, limit: real)
    requires d != 0.0
    ensures x / d >= limit <==> if d > 0.0 then x >= limit * d else x <= limit * d
    ensures x / d <= limit <==> if d > 0.0 then x <= limit * d else x >= limit * d
  {
    QuotientSigns(x, d);
    if d > 0.0 {
      QuotientAtLeast(x, d, limit);
      QuotientAtLeast(-x, d, -limit);
    } else {
      QuotientSigns(-x, -d);
      QuotientAtLeast(-x, -d, limit);
      QuotientAtLeast(x, -d, -limit);
    }
  }
}
