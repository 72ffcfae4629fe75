/** `Math.round` and the decimal rounding the sources use, on exact reals. */
module Numbers {

  /** `Math.round`: to the nearest integer, halves up. */
  function Round(x: real): int {
    (x + 0.5).Floor
  }

  /** `Math.round(x * 100) / 100`. */
  function Round2(x: real): real {
    Round(x * 100.0) as real / 100.0
  }

  /** `Math.round(x * 1000) / 1000`. */
  function Round3(x: real): real {
    Round(x * 1000.0) as real / 1000.0
  }

  function Min(a: real, b: real): real {
    if a < b then a else b
  }

  function Max(a: real, b: real): real {
    if a < b then b else a
  }

  lemma RoundMonotone(x: real, y: real)
    requires x <= y
    ensures Round(x) <= Round(y)
  {
  }

  lemma RoundExact(n: int)
    ensures Round(n as real) == n
  {
  }

  lemma Round2Monotone(x: real, y: real)
    requires x <= y
    ensures Round2(x) <= Round2(y)
  {
    RoundMonotone(x * 100.0, y * 100.0);
  }

  /** Rounding to hundredths stays between any two hundredths. */
  lemma Round2Within(lo: int, x: real, hi: int)
    requires lo as real / 100.0 <= x <= hi as real / 100.0
    ensures lo as real / 100.0 <= Round2(x) <= hi as real / 100.0
  {
    RoundMonotone(lo as real, x * 100.0);
    RoundMonotone(x * 100.0, hi as real);
    RoundExact(lo);
    RoundExact(hi);
  }

  lemma Round3Monotone(x: real, y: real)
    requires x <= y
    ensures Round3(x) <= Round3(y)
  {
    RoundMonotone(x * 1000.0, y * 1000.0);
  }

  lemma DivideBoth(a: real, b: real, n: real)
    requires a <= b && n > 0.0
    ensures a / n <= b / n
  {
  }

  lemma DivideBack(x: real, n: real)
    requires n > 0.0
    ensures x * n / n == x
  {
  }

  /** Fractions compare by their cross products. */
  lemma Fractions(a: nat, b: nat, c: nat, d: nat)
    requires b > 0 && d > 0 && a * d <= c * b
    ensures a as real / b as real <= c as real / d as real
  {
    var x, y, m := a as real / b as real, c as real / d as real, b as real * d as real;
    assert x * b as real == a as real && y * d as real == c as real;
    assert m > 0.0;
    assert x * m == (x * b as real) * d as real == (a * d) as real;
    assert y * m == (y * d as real) * b as real == (c * b) as real;
    DivideBoth(x * m, y * m, m);
    DivideBack(x, m);
    DivideBack(y, m);
  }

  lemma RateRange(part: nat, whole: nat)
    requires part <= whole && whole > 0
    ensures 0.0 <= part as real / whole as real <= 1.0
  {
  }
}
