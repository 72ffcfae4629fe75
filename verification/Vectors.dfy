/** Real vectors: sums, dot products, and the inequality that bounds the cosine of unit vectors. */
module Vectors {

  function Times(x: real, y: real): real {
    x * y
  }

  /** The sum of the first `n` products, in the order the loops add them. */
  function DotTo(a: seq<real>, b: seq<real>, n: nat): real
    requires n <= |a| && n <= |b|
  {
    if n == 0 then 0.0 else DotTo(a, b, n - 1) + Times(a[n - 1], b[n - 1])
  }

  function Dot(a: seq<real>, b: seq<real>): real
    requires |a| == |b|
  {
    DotTo(a, b, |a|)
  }

  function Scale(a: seq<real>, c: real): seq<real> {
    seq(|a|, i requires 0 <= i < |a| => a[i] * c)
  }

  function Minus(a: seq<real>, b: seq<real>): seq<real>
    requires |a| == |b|
  {
    seq(|a|, i requires 0 <= i < |a| => a[i] - b[i])
  }

  ghost predicate NonNegative(a: seq<real>) {
    forall i :: 0 <= i < |a| ==> a[i] >= 0.0
  }

  ghost predicate Zero(a: seq<real>) {
    forall i :: 0 <= i < |a| ==> a[i] == 0.0
  }

  lemma {:induction false} DotNonNegative(a: seq<real>, b: seq<real>, n: nat)
    requires NonNegative(a) && NonNegative(b) && n <= |a| && n <= |b|
    ensures DotTo(a, b, n) >= 0.0
  {
    if n > 0 {
      DotNonNegative(a, b, n - 1);
      TimesSign(a[n - 1], b[n - 1]);
      assert a[n - 1] >= 0.0 && b[n - 1] >= 0.0;
    }
  }

  lemma TimesSign(x: real, y: real)
    ensures x > 0.0 && y > 0.0 ==> Times(x, y) > 0.0
    ensures x == 0.0 ==> Times(x, y) == 0.0
    ensures Times(-x, -y) == Times(x, y)
  {
  }

  lemma SquareSign(x: real)
    ensures Times(x, x) >= 0.0
    ensures Times(x, x) == 0.0 <==> x == 0.0
  {
    hide Times;
    TimesSign(x, x);
    TimesSign(-x, -x);
  }

  /** A square sum is never negative, and vanishes only when every summand does. */
  lemma {:induction false} SquareSum(a: seq<real>, n: nat)
    requires n <= |a|
    ensures DotTo(a, a, n) >= 0.0
    ensures DotTo(a, a, n) == 0.0 <==> forall i :: 0 <= i < n ==> a[i] == 0.0
  {
    if n > 0 {
      SquareSum(a, n - 1);
      SquareSign(a[n - 1]);
      hide Times;
      if forall i :: 0 <= i < n ==> a[i] == 0.0 {
        assert a[n - 1] == 0.0;
      }
    }
  }

  lemma TimesScale(x: real, y: real, c: real)
    ensures Times(x * c, y * c) == Times(x, y) * (c * c)
  {
  }

  lemma Distribute(s: real, t: real, c: real)
    ensures (s + t) * c == s * c + t * c
  {
  }

  lemma TimesMinus(x: real, y: real)
    ensures Times(x - y, x - y) == Times(x, x) - 2.0 * Times(x, y) + Times(y, y)
  {
  }

  lemma {:induction false} DotScale(a: seq<real>, c: real, n: nat)
    requires n <= |a|
    ensures DotTo(Scale(a, c), Scale(a, c), n) == DotTo(a, a, n) * (c * c)
  {
    if n > 0 {
      DotScale(a, c, n - 1);
      TimesScale(a[n - 1], a[n - 1], c);
      Distribute(DotTo(a, a, n - 1), Times(a[n - 1], a[n - 1]), c * c);
    }
  }

  lemma {:induction false} DotMinus(a: seq<real>, b: seq<real>, n: nat)
    requires |a| == |b| && n <= |a|
    ensures DotTo(Minus(a, b), Minus(a, b), n) == DotTo(a, a, n) - 2.0 * DotTo(a, b, n) + DotTo(b, b, n)
  {
    if n > 0 {
      DotMinus(a, b, n - 1);
      TimesMinus(a[n - 1], b[n - 1]);
    }
  }

  /** The dot product never exceeds the mean of the square norms, and reaches it only at equality. */
  lemma DotBound(a: seq<real>, b: seq<real>)
    requires |a| == |b|
    ensures 2.0 * Dot(a, b) <= Dot(a, a) + Dot(b, b)
    ensures 2.0 * Dot(a, b) == Dot(a, a) + Dot(b, b) <==> a == b
  {
    var d := Minus(a, b);
    DotMinus(a, b, |a|);
    SquareSum(d, |a|);
    if 2.0 * Dot(a, b) == Dot(a, a) + Dot(b, b) {
      assert forall i :: 0 <= i < |a| ==> d[i] == a[i] - b[i];
    }
    if a == b {
      assert forall i :: 0 <= i < |a| ==> d[i] == 0.0;
    }
  }

  lemma {:induction false} DotWithZero(a: seq<real>, b: seq<real>, n: nat)
    requires |a| == |b| && n <= |a| && forall i :: 0 <= i < n ==> b[i] == 0.0
    ensures DotTo(a, b, n) == 0.0
  {
    if n > 0 {
      DotWithZero(a, b, n - 1);
    }
  }

  // ----- unit vectors -----

  ghost predicate IsSqrt(sqrt: real -> real) {
    forall x :: x >= 0.0 ==> sqrt(x) >= 0.0 && sqrt(x) * sqrt(x) == x
  }

  /** Division by the norm, where there is one. */
  function Normalize(a: seq<real>, sqrt: real -> real): seq<real> {
    var norm := sqrt(Dot(a, a));
    if norm > 0.0 then Scale(a, 1.0 / norm) else a
  }

  /** Non-negative and of norm one, or all zero. */
  ghost predicate UnitOrZero(a: seq<real>) {
    NonNegative(a) && (Zero(a) || Dot(a, a) == 1.0)
  }

  lemma NormalizeIsUnit(a: seq<real>, sqrt: real -> real)
    requires NonNegative(a) && IsSqrt(sqrt)
    ensures UnitOrZero(Normalize(a, sqrt))
    ensures Zero(Normalize(a, sqrt)) <==> Zero(a)
  {
    SquareSum(a, |a|);
    var square := Dot(a, a);
    var norm := sqrt(square);
    assert norm >= 0.0 && norm * norm == square;
    if norm > 0.0 {
      var c := 1.0 / norm;
      DotScale(a, c, |a|);
      assert c * norm == 1.0 && c > 0.0;
      assert square * (c * c) == (c * norm) * (c * norm);
      var unit := Scale(a, c);
      forall i | 0 <= i < |a| ensures unit[i] >= 0.0 && (unit[i] == 0.0 <==> a[i] == 0.0) {
        assert a[i] >= 0.0;
        if a[i] > 0.0 {
          assert a[i] * c > 0.0;
        }
      }
      assert unit == Normalize(a, sqrt);
      assert forall i :: 0 <= i < |a| ==> (unit[i] == 0.0 <==> a[i] == 0.0);
    }
  }

  /** In exact arithmetic the cosine needs no clamping; it is 1 exactly between equal nonzero vectors. */
  lemma CosineRange(a: seq<real>, b: seq<real>)
    requires |a| == |b| && UnitOrZero(a) && UnitOrZero(b)
    ensures 0.0 <= Dot(a, b) <= 1.0
    ensures Dot(a, b) == 1.0 <==> a == b && !Zero(a)
    ensures Zero(a) || Zero(b) ==> Dot(a, b) == 0.0
  {
    DotNonNegative(a, b, |a|);
    DotBound(a, b);
    SquareSum(a, |a|);
    SquareSum(b, |b|);
    if Zero(b) {
      DotWithZero(a, b, |a|);
    }
    if Zero(a) {
      DotWithZero(b, a, |a|);
      DotSymmetric(a, b, |a|);
    }
  }

  lemma {:induction false} DotSymmetric(a: seq<real>, b: seq<real>, n: nat)
    requires n <= |a| && n <= |b|
    ensures DotTo(a, b, n) == DotTo(b, a, n)
  {
    if n > 0 {
      DotSymmetric(a, b, n - 1);
    }
  }
}
