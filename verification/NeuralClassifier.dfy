/**
 The threat classifier: a feed-forward network with softmax output, its prediction, and the export
 and guarded loading of its weights, in exact arithmetic.
 */
module NeuralClassifier {
  import opened Text
  import opened Numbers
  import opened Vectors

  const INPUT := 64
  const HIDDEN1 := 64
  const HIDDEN2 := 48
  const LIMIT := 1000000.0

  /** All that is used of the exponential function. */
  ghost predicate IsExp(exp: real -> real) {
    exp(0.0) == 1.0 && (forall x :: exp(x) > 0.0) && (forall x, y :: x < y ==> exp(x) < exp(y))
  }

  function SumTo(v: seq<real>, n: nat): real
    requires n <= |v|
  {
    if n == 0 then 0.0 else SumTo(v, n - 1) + v[n - 1]
  }

  // ----- softmax and the predicted class -----

  function MaxTo(v: seq<real>, n: nat): real
    requires 0 < n <= |v|
  {
    if n == 1 then v[0]
    else if v[n - 1] > MaxTo(v, n - 1) then v[n - 1] else MaxTo(v, n - 1)
  }

  function Exps(logits: seq<real>, exp: real -> real): (e: seq<real>)
    requires logits != []
    ensures |e| == |logits|
  {
    var max := MaxTo(logits, |logits|);
    seq(|logits|, i requires 0 <= i < |logits| => exp(Max(-20.0, logits[i] - max)))
  }

  function SoftmaxOf(logits: seq<real>, exp: real -> real): (p: seq<real>)
    requires logits != []
    ensures |p| == |logits|
  {
    var e := Exps(logits, exp);
    var sum := SumTo(e, |e|);
    Scale(e, if sum > 0.0 then 1.0 / sum else 1.0)
  }

  method Largest(logits: array<real>) returns (max: real)
    requires logits.Length > 0
    ensures max == MaxTo(logits[..], logits.Length)
  {
    max := logits[0];
    for i := 1 to logits.Length
      invariant max == MaxTo(logits[..], i)
    {
      if logits[i] > max {
        max := logits[i];
      }
    }
  }

  method Exponentials(logits: array<real>, max: real, exp: real -> real) returns (expArr: array<real>, sum: real)
    requires logits.Length > 0 && max == MaxTo(logits[..], logits.Length)
    ensures fresh(expArr) && expArr[..] == Exps(logits[..], exp) && sum == SumTo(expArr[..], expArr.Length)
  {
    hide MaxTo, Max;
    ghost var e := Exps(logits[..], exp);
    sum := 0.0;
    expArr := new real[logits.Length];
    for i := 0 to logits.Length
      invariant forall j :: 0 <= j < i ==> expArr[j] == e[j]
      invariant sum == SumTo(e, i)
    {
      var x := exp(Max(-20.0, logits[i] - max));
      expArr[i] := x;
      sum := sum + x;
    }
    assert expArr[..] == e;
  }

  method Softmax(logits: array<real>, exp: real -> real) returns (probs: array<real>)
    requires logits.Length > 0
    ensures fresh(probs) && probs[..] == SoftmaxOf(logits[..], exp)
  {
    hide Exps, MaxTo, SumTo;
    var max := Largest(logits);
    var expArr, sum := Exponentials(logits, max, exp);
    ghost var e := expArr[..];
    probs := new real[logits.Length];
    var invSum := if sum > 0.0 then 1.0 / sum else 1.0;
    ghost var scaled := Scale(e, invSum);
    for i := 0 to logits.Length
      invariant expArr[..] == e && forall j :: 0 <= j < i ==> probs[j] == scaled[j]
    {
      probs[i] := expArr[i] * invSum;
    }
    assert probs[..] == scaled;
  }

  /** Index of the first maximum among the first `n`. */
  function ArgmaxTo(v: seq<real>, n: nat): (i: nat)
    requires 0 < n <= |v|
    ensures i < n
  {
    if n == 1 then 0
    else
      var best := ArgmaxTo(v, n - 1);
      if v[n - 1] > v[best] then n - 1 else best
  }

  ghost predicate IsFirstMaximum(v: seq<real>, i: nat) {
    && i < |v|
    && (forall j :: 0 <= j < |v| ==> v[j] <= v[i])
    && (forall j :: 0 <= j < i ==> v[j] < v[i])
  }

  lemma {:induction false} ArgmaxIsFirstMaximum(v: seq<real>, n: nat)
    requires 0 < n <= |v|
    ensures var i := ArgmaxTo(v, n);
            && (forall j :: 0 <= j < n ==> v[j] <= v[i])
            && (forall j :: 0 <= j < i ==> v[j] < v[i])
    ensures MaxTo(v, n) == v[ArgmaxTo(v, n)]
  {
    if n > 1 {
      ArgmaxIsFirstMaximum(v, n - 1);
    }
  }

  lemma {:induction false} SumPositive(v: seq<real>, n: nat)
    requires n <= |v| && forall i :: 0 <= i < |v| ==> v[i] > 0.0
    ensures SumTo(v, n) >= 0.0 && (n > 0 ==> SumTo(v, n) > 0.0)
  {
    if n > 0 {
      SumPositive(v, n - 1);
    }
  }

  lemma {:induction false} SumScale(v: seq<real>, c: real, n: nat)
    requires n <= |v|
    ensures SumTo(Scale(v, c), n) == SumTo(v, n) * c
  {
    if n > 0 {
      SumScale(v, c, n - 1);
      Distribute(SumTo(v, n - 1), v[n - 1], c);
    }
  }

  lemma {:induction false} SumBound(v: seq<real>, hi: real, n: nat)
    requires n <= |v| && forall i :: 0 <= i < |v| ==> v[i] <= hi
    ensures SumTo(v, n) <= hi * n as real
  {
    if n > 0 {
      SumBound(v, hi, n - 1);
      assert hi * (n - 1) as real + hi == hi * n as real;
    }
  }

  /** The scaled exponentials are ordered like the logits where it matters: the first maximum. */
  lemma ExpsKeepFirstMaximum(logits: seq<real>, exp: real -> real, i: nat)
    requires logits != [] && IsExp(exp) && IsFirstMaximum(logits, i)
    ensures IsFirstMaximum(Exps(logits, exp), i) && Exps(logits, exp)[i] == 1.0
    ensures forall j :: 0 <= j < |logits| ==> Exps(logits, exp)[j] > 0.0
  {
    ArgmaxIsFirstMaximum(logits, |logits|);
    var e, max := Exps(logits, exp), MaxTo(logits, |logits|);
    assert logits[i] == max;
    assert e[i] == exp(0.0);
    forall j | 0 <= j < |logits| ensures e[j] <= e[i] && (logits[j] < max ==> e[j] < e[i]) {
      if logits[j] < max {
        assert Max(-20.0, logits[j] - max) < 0.0;
      } else {
        assert logits[j] == max;
      }
    }
  }

  lemma ScaleKeepsOrder(x: real, y: real, c: real)
    requires c > 0.0
    ensures x < y ==> x * c < y * c
    ensures x <= y ==> x * c <= y * c
    ensures x > 0.0 ==> x * c > 0.0
  {
  }

  lemma ScaledFirstMaximum(e: seq<real>, c: real, i: nat)
    requires c > 0.0 && IsFirstMaximum(e, i)
    ensures IsFirstMaximum(Scale(e, c), i)
    ensures (forall j :: 0 <= j < |e| ==> e[j] > 0.0) ==> forall j :: 0 <= j < |e| ==> Scale(e, c)[j] > 0.0
  {
    var p := Scale(e, c);
    forall j | 0 <= j < |e|
      ensures p[j] <= p[i] && (e[j] < e[i] ==> p[j] < p[i]) && (e[j] > 0.0 ==> p[j] > 0.0)
    {
      var x, y := e[j], e[i];
      assert p[j] == x * c && p[i] == y * c && x <= y;
      ScaleKeepsOrder(x, y, c);
    }
  }

  lemma Normalized(e: seq<real>)
    requires e != [] && forall i :: 0 <= i < |e| ==> e[i] > 0.0
    ensures SumTo(e, |e|) > 0.0 && 1.0 / SumTo(e, |e|) > 0.0
    ensures SumTo(Scale(e, 1.0 / SumTo(e, |e|)), |e|) == 1.0
  {
    SumPositive(e, |e|);
    var sum := SumTo(e, |e|);
    var c := 1.0 / sum;
    assert c > 0.0 && sum * c == 1.0;
    SumScale(e, c, |e|);
  }

  /** The largest of `n` numbers that sum to one is at least one in `n`. */
  lemma LargestShare(p: seq<real>, i: nat)
    requires IsFirstMaximum(p, i) && SumTo(p, |p|) == 1.0
    ensures p[i] >= 1.0 / |p| as real
  {
    var n := |p|;
    SumBound(p, p[i], n);
    DivideBoth(1.0, p[i] * n as real, n as real);
    DivideBack(p[i], n as real);
  }

  /** Probabilities are positive and sum to one; the most probable class is the first one with the
      largest logit, and its probability is at least one in the number of classes. */
  lemma SoftmaxIsDistribution(logits: seq<real>, exp: real -> real)
    requires logits != [] && IsExp(exp)
    ensures var p, n, best := SoftmaxOf(logits, exp), |logits|, ArgmaxTo(SoftmaxOf(logits, exp), |logits|);
            && (forall j :: 0 <= j < n ==> p[j] > 0.0) && SumTo(p, n) == 1.0
            && IsFirstMaximum(p, best) && IsFirstMaximum(logits, best)
            && p[best] >= 1.0 / n as real
  {
    hide ArgmaxTo, MaxTo, Exps, SumTo, IsExp;
    var n, e, i := |logits|, Exps(logits, exp), ArgmaxTo(logits, |logits|);
    ArgmaxIsFirstMaximum(logits, n);
    assert IsFirstMaximum(logits, i);
    ExpsKeepFirstMaximum(logits, exp, i);
    Normalized(e);
    ScaledFirstMaximum(e, 1.0 / SumTo(e, |e|), i);
    var p := SoftmaxOf(logits, exp);
    ArgmaxIsFirstMaximum(p, n);
    assert IsFirstMaximum(p, ArgmaxTo(p, n));
    FirstMaximumUnique(p, i, ArgmaxTo(p, n));
    LargestShare(p, i);
  }

  lemma FirstMaximumUnique(v: seq<real>, i: nat, j: nat)
    requires IsFirstMaximum(v, i) && IsFirstMaximum(v, j)
    ensures i == j
  {
    assert v[i] == v[j];
  }

  // ----- the layers -----

  /** Column `j` of a weight matrix stored row by row with `cols` columns, against the input. */
  function Column(x: seq<real>, w: seq<real>, cols: nat, j: nat, n: nat): real
    requires n <= |x| && j < cols && |w| >= |x| * cols
  {
    if n == 0 then 0.0
    else
      InMatrix(n - 1, |x|, cols, j);
      Column(x, w, cols, j, n - 1) + x[n - 1] * w[(n - 1) * cols + j]
  }

  lemma InMatrix(i: nat, rows: nat, cols: nat, j: nat)
    requires i < rows && j < cols
    ensures 0 <= i * cols + j < rows * cols
  {
    assert (i + 1) * cols <= rows * cols;
  }

  function Dense(b: seq<real>, w: seq<real>, x: seq<real>): (r: seq<real>)
    requires |w| == |x| * |b|
    ensures |r| == |b|
  {
    seq(|b|, j requires 0 <= j < |b| => b[j] + Column(x, w, |b|, j, |x|))
  }

  /** One output of a layer: the bias, then one product for each input. */
  method WeightedSum(bias: real, w: array<real>, x: array<real>, cols: nat, j: nat) returns (sum: real)
    requires j < cols && w.Length == x.Length * cols
    ensures sum == bias + Column(x[..], w[..], cols, j, x.Length)
  {
    sum := bias;
    for i := 0 to x.Length
      invariant sum == bias + Column(x[..], w[..], cols, j, i)
    {
      InMatrix(i, x.Length, cols, j);
      assert x[i] == x[..][i] && w[i * cols + j] == w[..][i * cols + j];
      sum := sum + x[i] * w[i * cols + j];
    }
  }

  method DenseLayer(b: array<real>, w: array<real>, x: array<real>) returns (out: array<real>)
    requires w.Length == x.Length * b.Length
    ensures fresh(out) && out[..] == Dense(b[..], w[..], x[..])
  {
    ghost var sums := Dense(b[..], w[..], x[..]);
    hide Column;
    out := new real[b.Length];
    for j := 0 to b.Length
      invariant forall k :: 0 <= k < j ==> out[k] == sums[k]
    {
      out[j] := WeightedSum(b[j], w, x, b.Length, j);
    }
    assert out[..] == sums;
  }

  function LeakyRelu(x: real): real {
    if x > 0.0 then x else 0.01 * x
  }

  /** With a positive exponential the denominator is never zero. */
  function Sigmoid(x: real, exp: real -> real): real {
    var d := 1.0 + exp(-Max(-10.0, Min(10.0, x)));
    if d == 0.0 then 0.0 else 1.0 / d
  }

  function Activate(x: seq<real>): (r: seq<real>)
    ensures |r| == |x|
  {
    seq(|x|, i requires 0 <= i < |x| => LeakyRelu(x[i]))
  }

  /** A residual block: activation plus the input. */
  function Residual(x: seq<real>, skip: seq<real>): (r: seq<real>)
    requires |x| == |skip|
    ensures |r| == |x|
  {
    seq(|x|, i requires 0 <= i < |x| => LeakyRelu(x[i]) + skip[i])
  }

  function Gated(x: seq<real>, skip: seq<real>, exp: real -> real): (r: seq<real>)
    requires |x| == |skip|
    ensures |r| == |x|
  {
    seq(|x|, i requires 0 <= i < |x| => Times(skip[i], Sigmoid(x[i], exp)) + skip[i])
  }

  method ActivatedLayer(b: array<real>, w: array<real>, x: array<real>) returns (out: array<real>)
    requires w.Length == x.Length * b.Length
    ensures fresh(out) && out[..] == Activate(Dense(b[..], w[..], x[..]))
  {
    hide Dense, LeakyRelu;
    out := DenseLayer(b, w, x);
    ghost var was := out[..];
    for i := 0 to out.Length
      invariant forall j :: 0 <= j < out.Length ==> out[j] == if j < i then LeakyRelu(was[j]) else was[j]
    {
      out[i] := LeakyRelu(out[i]);
    }
    assert out[..] == Activate(was);
  }

  method ResidualLayer(b: array<real>, w: array<real>, x: array<real>) returns (out: array<real>)
    requires w.Length == x.Length * b.Length && b.Length == x.Length
    ensures fresh(out) && out[..] == Residual(Dense(b[..], w[..], x[..]), x[..])
  {
    hide Dense, LeakyRelu;
    out := DenseLayer(b, w, x);
    ghost var was := out[..];
    for i := 0 to out.Length
      invariant forall j :: 0 <= j < out.Length ==> out[j] == if j < i then LeakyRelu(was[j]) + x[j] else was[j]
    {
      out[i] := LeakyRelu(out[i]) + x[i];
    }
    assert out[..] == Residual(was, x[..]);
  }

  method GatedLayer(b: array<real>, w: array<real>, x: array<real>, exp: real -> real) returns (out: array<real>)
    requires w.Length == x.Length * b.Length && b.Length == x.Length
    ensures fresh(out) && out[..] == Gated(Dense(b[..], w[..], x[..]), x[..], exp)
  {
    hide Dense, Sigmoid;
    out := DenseLayer(b, w, x);
    ghost var was := out[..];
    for i := 0 to out.Length
      invariant forall j :: 0 <= j < out.Length ==>
                  out[j] == if j < i then Times(x[j], Sigmoid(was[j], exp)) + x[j] else was[j]
    {
      var gate := Sigmoid(out[i], exp);
      out[i] := x[i] * gate + x[i];
    }
    assert out[..] == Gated(was, x[..], exp);
  }

  // ----- layer normalisation -----

  function MeanOf(v: seq<real>): real
    requires v != []
  {
    SumTo(v, |v|) / |v| as real
  }

  function Centered(v: seq<real>): (d: seq<real>)
    requires v != []
    ensures |d| == |v|
  {
    var mean := MeanOf(v);
    seq(|v|, i requires 0 <= i < |v| => v[i] - mean)
  }

  function Variance(v: seq<real>): real
    requires v != []
  {
    Dot(Centered(v), Centered(v)) / |v| as real
  }

  function LayerNorm(v: seq<real>, sqrt: real -> real): (r: seq<real>)
    requires v != []
    ensures |r| == |v|
  {
    var std := sqrt(Variance(v) + 0.00001);
    if std == 0.0 then Centered(v) else Scale(Centered(v), 1.0 / std)
  }

  lemma {:induction false} SumShift(v: seq<real>, mean: real, d: seq<real>, n: nat)
    requires n <= |v| == |d| && forall i :: 0 <= i < |v| ==> d[i] == v[i] - mean
    ensures SumTo(d, n) == SumTo(v, n) - mean * n as real
  {
    if n > 0 {
      SumShift(v, mean, d, n - 1);
      assert mean * (n - 1) as real + mean == mean * n as real;
    }
  }

  lemma CenteredSums(v: seq<real>)
    requires v != []
    ensures SumTo(Centered(v), |v|) == 0.0 && Variance(v) >= 0.0
  {
    var d, n := Centered(v), |v|;
    SumShift(v, MeanOf(v), d, n);
    MeanTimes(v);
    SquareSum(d, n);
    DivideBoth(0.0, Dot(d, d), n as real);
  }

  /** The normalised vector has mean zero and a square mean below one. */
  lemma LayerNormCenters(v: seq<real>, sqrt: real -> real)
    requires v != [] && IsSqrt(sqrt)
    ensures var out, n := LayerNorm(v, sqrt), |v|;
            |out| == n && SumTo(out, n) == 0.0 && Dot(out, out) < n as real
  {
    LayerNormIsScaled(v, sqrt);
    CenteredSums(v);
    VarianceTimes(v);
    hide *;
    ScaledMoments(Centered(v), Variance(v), sqrt(Variance(v) + 0.00001));
  }

  lemma ScaledMoments(d: seq<real>, variance: real, std: real)
    requires d != [] && SumTo(d, |d|) == 0.0 && variance >= 0.0 && variance * |d| as real == Dot(d, d)
    requires std > 0.0 && std * std == variance + 0.00001
    ensures var out := Scale(d, 1.0 / std);
            |out| == |d| && SumTo(out, |d|) == 0.0 && Dot(out, out) < |d| as real
  {
    hide DotTo, SumTo;
    var n := |d|;
    SumScale(d, 1.0 / std, n);
    DotScale(d, 1.0 / std, n);
    BelowOne(variance, std, n as real, Dot(d, d));
  }

  /** The square root is never zero, so the division is always one. */
  lemma LayerNormIsScaled(v: seq<real>, sqrt: real -> real)
    requires v != [] && IsSqrt(sqrt)
    ensures var std := sqrt(Variance(v) + 0.00001);
            std > 0.0 && std * std == Variance(v) + 0.00001 && LayerNorm(v, sqrt) == Scale(Centered(v), 1.0 / std)
  {
    CenteredSums(v);
    hide Variance, Centered;
    StdPositive(sqrt(Variance(v) + 0.00001), Variance(v));
  }

  lemma MeanTimes(v: seq<real>)
    requires v != []
    ensures MeanOf(v) * |v| as real == SumTo(v, |v|)
  {
  }

  lemma VarianceTimes(v: seq<real>)
    requires v != []
    ensures Variance(v) * |v| as real == Dot(Centered(v), Centered(v))
  {
  }

  lemma StdPositive(std: real, variance: real)
    requires std * std == variance + 0.00001 && variance >= 0.0 && std >= 0.0
    ensures std > 0.0
  {
    assert std == 0.0 ==> std * std == 0.0;
  }

  lemma BelowOne(variance: real, std: real, n: real, square: real)
    requires std > 0.0 && std * std == variance + 0.00001 && n > 0.0 && variance >= 0.0 && variance * n == square
    ensures square * ((1.0 / std) * (1.0 / std)) < n
  {
    var c := 1.0 / std;
    assert c * std == 1.0 && c > 0.0;
    PositiveProduct(c, c);
    var cc := c * c;
    assert cc * (std * std) == (c * std) * (c * std) == 1.0;
    assert (variance + 0.00001) * cc == 1.0;
    assert variance * cc < 1.0;
    PositiveProduct(1.0 - variance * cc, n);
    assert (1.0 - variance * cc) * n == n - square * cc by {
      assert (variance * cc) * n == (variance * n) * cc;
    }
  }

  lemma PositiveProduct(x: real, y: real)
    requires x > 0.0 && y > 0.0
    ensures x * y > 0.0
  {
  }

  method Moments(v: array<real>) returns (mean: real, variance: real)
    requires v.Length > 0
    ensures mean == MeanOf(v[..]) && variance == Variance(v[..])
  {
    ghost var d := Centered(v[..]);
    var n := v.Length as real;
    mean := 0.0;
    for i := 0 to v.Length
      invariant mean == SumTo(v[..], i)
    {
      mean := mean + v[i];
    }
    mean := mean / n;
    variance := 0.0;
    for i := 0 to v.Length
      invariant variance == DotTo(d, d, i)
    {
      var diff := v[i] - mean;
      assert d[i] == diff;
      variance := variance + diff * diff;
    }
    variance := variance / n;
  }

  method NormalizeLayer(v: array<real>, sqrt: real -> real) returns (out: array<real>)
    requires v.Length > 0 && IsSqrt(sqrt)
    ensures fresh(out) && out[..] == LayerNorm(v[..], sqrt)
  {
    var mean, variance := Moments(v);
    LayerNormIsScaled(v[..], sqrt);
    hide *;
    var std := sqrt(variance + 0.00001);
    out := Standardize(v, mean, std);
  }

  method Standardize(v: array<real>, mean: real, std: real) returns (out: array<real>)
    requires v.Length > 0 && mean == MeanOf(v[..]) && std > 0.0
    ensures fresh(out) && out[..] == Scale(Centered(v[..]), 1.0 / std)
  {
    hide MeanOf;
    ghost var d := Centered(v[..]);
    ghost var scaled := Scale(d, 1.0 / std);
    out := new real[v.Length];
    for i := 0 to v.Length
      invariant forall j :: 0 <= j < i ==> out[j] == scaled[j]
    {
      out[i] := (v[i] - mean) / std;
      DivideAsTimes(d[i], std);
    }
    assert out[..] == scaled;
  }

  lemma DivideAsTimes(x: real, y: real)
    requires y > 0.0
    ensures x / y == x * (1.0 / y)
  {
  }

  // ----- the weights -----

  const TENSORS := ["W1", "b1", "W_res", "b_res", "W_attn", "b_attn", "W_res2", "b_res2", "W2", "b2", "W3", "b3"]

  /** The number of weights of each tensor, for a number of output classes. */
  function SizeOf(k: nat, outputs: nat): nat
    requires k < |TENSORS|
  {
    [INPUT * HIDDEN1, HIDDEN1, HIDDEN1 * HIDDEN1, HIDDEN1, HIDDEN1 * HIDDEN1, HIDDEN1, HIDDEN1 * HIDDEN1, HIDDEN1,
     HIDDEN1 * HIDDEN2, HIDDEN2, HIDDEN2 * outputs, outputs][k]
  }

  /** All weights, in the order of `TENSORS`. */
  type Weights = seq<seq<real>>

  predicate Shaped(w: Weights, outputs: nat) {
    |w| == |TENSORS| && forall k :: 0 <= k < |TENSORS| ==> |w[k]| == SizeOf(k, outputs)
  }

  /** A weight as parsed: a finite number or anything else. */
  datatype Parsed = Num(value: real) | NotFinite

  datatype WeightFile = WeightFile(
    inputDim: int,
    hidden1Dim: int,
    hidden2Dim: int,
    outputDim: int,
    classes: seq<string>,
    tensors: map<string, seq<Parsed>>)

  predicate GoodEntry(e: Parsed) {
    e.Num? && -LIMIT <= e.value <= LIMIT
  }

  predicate GoodTensor(f: WeightFile, k: nat, outputs: nat)
    requires k < |TENSORS|
  {
    && TENSORS[k] in f.tensors && |f.tensors[TENSORS[k]]| == SizeOf(k, outputs)
    && forall i :: 0 <= i < |f.tensors[TENSORS[k]]| ==> GoodEntry(f.tensors[TENSORS[k]][i])
  }

  predicate SameDimensions(f: WeightFile, classes: seq<string>) {
    && f.inputDim == INPUT && f.hidden1Dim == HIDDEN1 && f.hidden2Dim == HIDDEN2 && f.outputDim == |classes|
    && f.classes == classes
  }

  /** The files a classifier with these classes accepts. */
  predicate Accepts(f: Option<WeightFile>, classes: seq<string>) {
    f.Some? && SameDimensions(f.value, classes) && forall k :: 0 <= k < |TENSORS| ==> GoodTensor(f.value, k, |classes|)
  }

  /** The file has a tensor of this name and size, all of its entries finite and at most a million in size. */
  predicate HasTensor(f: WeightFile, name: string, size: nat) {
    && name in f.tensors && |f.tensors[name]| == size
    && forall i :: 0 <= i < size ==>
                     f.tensors[name][i].Num? && -1000000.0 <= f.tensors[name][i].value <= 1000000.0
  }

  /** A weight file is accepted exactly for a network of 64 inputs, 64 and 48 hidden channels and one output
      for each class, with the same classes in the same order and all twelve tensors of their sizes. */
  lemma AcceptsOnFields(f: WeightFile, classes: seq<string>)
    ensures Accepts(Some(f), classes) <==>
            && f.inputDim == 64 && f.hidden1Dim == 64 && f.hidden2Dim == 48 && f.outputDim == |classes|
            && f.classes == classes
            && HasTensor(f, "W1", 64 * 64) && HasTensor(f, "b1", 64)
            && HasTensor(f, "W_res", 64 * 64) && HasTensor(f, "b_res", 64)
            && HasTensor(f, "W_attn", 64 * 64) && HasTensor(f, "b_attn", 64)
            && HasTensor(f, "W_res2", 64 * 64) && HasTensor(f, "b_res2", 64)
            && HasTensor(f, "W2", 64 * 48) && HasTensor(f, "b2", 48)
            && HasTensor(f, "W3", 48 * |classes|) && HasTensor(f, "b3", |classes|)
    ensures !Accepts(None, classes)
  {
    forall k | 0 <= k < |TENSORS|
      ensures GoodTensor(f, k, |classes|) <==> HasTensor(f, TENSORS[k], SizeOf(k, |classes|))
    {
      hide SizeOf;
    }
    hide GoodTensor, HasTensor;
    assert GoodTensor(f, 0, |classes|) && GoodTensor(f, 1, |classes|) && GoodTensor(f, 2, |classes|)
           && GoodTensor(f, 3, |classes|) && GoodTensor(f, 4, |classes|) && GoodTensor(f, 5, |classes|)
           && GoodTensor(f, 6, |classes|) && GoodTensor(f, 7, |classes|) && GoodTensor(f, 8, |classes|)
           && GoodTensor(f, 9, |classes|) && GoodTensor(f, 10, |classes|) && GoodTensor(f, 11, |classes|)
           <==> forall k :: 0 <= k < |TENSORS| ==> GoodTensor(f, k, |classes|);
  }

  function NumbersOf(es: seq<Parsed>): seq<real> {
    seq(|es|, i requires 0 <= i < |es| => if es[i].Num? then es[i].value else 0.0)
  }

  function WeightsIn(f: WeightFile): Weights {
    seq(|TENSORS|, k requires 0 <= k < |TENSORS| =>
      if TENSORS[k] in f.tensors then NumbersOf(f.tensors[TENSORS[k]]) else [])
  }

  function AsParsed(v: seq<real>): seq<Parsed> {
    seq(|v|, i requires 0 <= i < |v| => Num(v[i]))
  }

  /** The first `n` tensors under their names. */
  function TensorsTo(w: Weights, n: nat): map<string, seq<Parsed>>
    requires n <= |TENSORS| && n <= |w|
  {
    if n == 0 then map[] else TensorsTo(w, n - 1)[TENSORS[n - 1] := AsParsed(w[n - 1])]
  }

  lemma {:induction false} TensorsFound(w: Weights, n: nat)
    requires n <= |TENSORS| && n <= |w|
    ensures forall k :: 0 <= k < n ==> TENSORS[k] in TensorsTo(w, n) && TensorsTo(w, n)[TENSORS[k]] == AsParsed(w[k])
  {
    if n > 0 {
      TensorsFound(w, n - 1);
      NamesAreDistinct();
      hide AsParsed;
    }
  }

  /** The exported file of weights. */
  function FileOf(w: Weights, classes: seq<string>): WeightFile
    requires Shaped(w, |classes|)
  {
    WeightFile(INPUT, HIDDEN1, HIDDEN2, |classes|, classes, TensorsTo(w, |TENSORS|))
  }

  lemma NamesAreDistinct()
    ensures forall i, j :: 0 <= i < j < |TENSORS| ==> TENSORS[i] != TENSORS[j]
  {
    assert |TENSORS[0]| == 2 && |TENSORS[1]| == 2 && |TENSORS[2]| == 5 && |TENSORS[3]| == 5 && |TENSORS[4]| == 6;
    assert |TENSORS[5]| == 6 && |TENSORS[6]| == 6 && |TENSORS[7]| == 6 && |TENSORS[8]| == 2 && |TENSORS[9]| == 2;
    assert TENSORS[0][1] == '1' && TENSORS[8][1] == '2' && TENSORS[10][1] == '3' && TENSORS[1][1] == '1';
    assert TENSORS[9][1] == '2' && TENSORS[11][1] == '3' && TENSORS[4][2] == 'a' && TENSORS[5][2] == 'a';
    assert TENSORS[6][2] == 'r' && TENSORS[7][2] == 'r';
    assert forall k :: 0 <= k < |TENSORS| ==> TENSORS[k][0] == if k % 2 == 0 then 'W' else 'b';
  }

  predicate WithinLimit(w: Weights) {
    forall k, i :: 0 <= k < |w| && 0 <= i < |w[k]| ==> -1000000.0 <= w[k][i] <= 1000000.0
  }

  /** Exported weights are accepted exactly when all of them are within the limit, and are read back
      as they were. */
  lemma ExportThenLoad(w: Weights, classes: seq<string>)
    requires Shaped(w, |classes|)
    ensures Accepts(Some(FileOf(w, classes)), classes) <==> WithinLimit(w)
    ensures WeightsIn(FileOf(w, classes)) == w
  {
    TensorsFound(w, |TENSORS|);
    hide TensorsTo;
    var f := FileOf(w, classes);
    forall k | 0 <= k < |TENSORS|
      ensures f.tensors[TENSORS[k]] == AsParsed(w[k]) && NumbersOf(f.tensors[TENSORS[k]]) == w[k]
    {
    }
    if Accepts(Some(f), classes) {
      forall k, i | 0 <= k < |w| && 0 <= i < |w[k]| ensures -LIMIT <= w[k][i] <= LIMIT {
        assert GoodTensor(f, k, |classes|);
        assert GoodEntry(f.tensors[TENSORS[k]][i]);
      }
    }
  }

  // ----- the forward pass -----

  /** The hidden layers, up to the one that is normalised. */
  function Hidden(w: Weights, outputs: nat, x: seq<real>, exp: real -> real): (a2: seq<real>)
    requires Shaped(w, outputs) && |x| == INPUT
    ensures |a2| == HIDDEN2
  {
    var a1 := Activate(Dense(w[1], w[0], x));
    var res := Residual(Dense(w[3], w[2], a1), a1);
    var attn := Gated(Dense(w[5], w[4], res), res, exp);
    var res2 := Residual(Dense(w[7], w[6], attn), attn);
    Activate(Dense(w[9], w[8], res2))
  }

  function Logits(w: Weights, outputs: nat, x: seq<real>, exp: real -> real, sqrt: real -> real): (logits: seq<real>)
    requires Shaped(w, outputs) && |x| == INPUT
    ensures |logits| == outputs
  {
    Dense(w[11], w[10], LayerNorm(Hidden(w, outputs, x, exp), sqrt))
  }

  /** Without classes no class is predicted, at confidence -1. */
  datatype Prediction = Prediction(
    predictedClass: Option<string>,
    confidence: real,
    probabilities: seq<real>,
    classProbabilities: map<string, real>)

  /** The first `n` probabilities under the names of their classes; a repeated name keeps the last. */
  function ByClass(classes: seq<string>, p: seq<real>, n: nat): map<string, real>
    requires n <= |classes| && n <= |p|
  {
    if n == 0 then map[] else ByClass(classes, p, n - 1)[classes[n - 1] := p[n - 1]]
  }

  /** Where no class is named twice, each name has its own probability, and no other name has any. */
  lemma {:induction false} ByClassFinds(classes: seq<string>, p: seq<real>, n: nat)
    requires n <= |classes| && n <= |p| && forall i, j :: 0 <= i < j < |classes| ==> classes[i] != classes[j]
    ensures ByClass(classes, p, n).Keys == set c | c in classes[..n]
    ensures forall i :: 0 <= i < n ==>
                          classes[i] in ByClass(classes, p, n) && ByClass(classes, p, n)[classes[i]] == p[i]
  {
    if n > 0 {
      ByClassFinds(classes, p, n - 1);
      assert classes[..n] == classes[..n - 1] + [classes[n - 1]];
    }
  }

  function Classify(logits: seq<real>, classes: seq<string>, exp: real -> real): (r: Prediction)
    requires |logits| == |classes|
    ensures |r.probabilities| == |classes|
  {
    if logits == [] then Prediction(None, -1.0, [], map[])
    else
      var p := SoftmaxOf(logits, exp);
      var best := ArgmaxTo(p, |p|);
      Prediction(Some(classes[best]), p[best], p, ByClass(classes, p, |p|))
  }

  /** What the prediction means: probabilities that sum to one, and the first class whose logit is
      the largest, with that class's probability, at least one in the number of classes. */
  lemma PredictsLargestLogit(logits: seq<real>, classes: seq<string>, exp: real -> real)
    requires |logits| == |classes| > 0 && IsExp(exp)
    ensures var r, n := Classify(logits, classes, exp), |classes|;
            && SumTo(r.probabilities, n) == 1.0 && r.confidence >= 1.0 / n as real
            && exists i: nat :: i < n && IsFirstMaximum(logits, i) && r.predictedClass == Some(classes[i])
                                && r.confidence == r.probabilities[i]
  {
    hide SoftmaxOf, ArgmaxTo, SumTo, IsFirstMaximum;
    SoftmaxIsDistribution(logits, exp);
    assert IsFirstMaximum(logits, ArgmaxTo(SoftmaxOf(logits, exp), |logits|));
  }

  // ----- the classifier -----

  class NeuralThreatClassifier {
    const classes: seq<string>
    /** The weight arrays, in the order of `TENSORS`. */
    const tensors: seq<array<real>>

    ghost predicate Valid() {
      && |tensors| == |TENSORS|
      && (forall k :: 0 <= k < |TENSORS| ==> tensors[k].Length == SizeOf(k, |classes|))
      && (forall i, j :: 0 <= i < j < |TENSORS| ==> tensors[i] != tensors[j])
    }

    ghost function Contents(): (w: Weights)
      requires Valid()
      reads tensors
      ensures Shaped(w, |classes|)
    {
      seq(|TENSORS|, k requires 0 <= k < |TENSORS| reads tensors => tensors[k][..])
    }

    /** The prediction for an input vector, by the weights as they are now. */
    ghost function PredictionFor(x: seq<real>, exp: real -> real, sqrt: real -> real): Prediction
      requires Valid() && |x| == INPUT
      reads tensors
    {
      Classify(Logits(Contents(), |classes|, x, exp, sqrt), classes, exp)
    }

    /** Biases start at 0.01, matrices at the given random numbers. */
    constructor (customClasses: seq<string>, random: (nat, nat) -> real)
      ensures Valid() && classes == customClasses && fresh(tensors)
      ensures forall k, i :: 0 <= k < |TENSORS| && 0 <= i < SizeOf(k, |classes|) ==>
                Contents()[k][i] == if k % 2 == 0 then random(k, i) else 0.01
    {
      var ts: seq<array<real>> := [];
      for k := 0 to |TENSORS|
        invariant |ts| == k && fresh(ts)
        invariant forall j :: 0 <= j < k ==> ts[j].Length == SizeOf(j, |customClasses|)
        invariant forall i, j :: 0 <= i < j < k ==> ts[i] != ts[j]
        invariant forall j, i :: 0 <= j < k && 0 <= i < ts[j].Length ==>
                    ts[j][i] == if j % 2 == 0 then random(j, i) else 0.01
      {
        var a := new real[SizeOf(k, |customClasses|)](i requires i >= 0 => if k % 2 == 0 then random(k, i) else 0.01);
        ts := ts + [a];
      }
      classes, tensors := customClasses, ts;
    }

    method ExportWeights() returns (f: WeightFile)
      requires Valid()
      ensures f == FileOf(Contents(), classes)
    {
      hide AsParsed, SizeOf;
      var m: map<string, seq<Parsed>> := map[];
      for k := 0 to |TENSORS|
        invariant m == TensorsTo(Contents(), k)
      {
        assert Contents()[k] == tensors[k][..];
        m := m[TENSORS[k] := AsParsed(tensors[k][..])];
      }
      f := WeightFile(INPUT, HIDDEN1, HIDDEN2, |classes|, classes, m);
    }

    /** All or nothing: a file that is not accepted changes no weight. */
    method LoadWeights(f: Option<WeightFile>) returns (ok: bool)
      requires Valid()
      modifies tensors
      ensures ok <==> Accepts(f, classes)
      ensures Contents() == if ok then WeightsIn(f.value) else old(Contents())
    {
      if f.None? || !SameDimensions(f.value, classes) {
        return false;
      }
      for k := 0 to |TENSORS|
        invariant forall j :: 0 <= j < k ==> GoodTensor(f.value, j, |classes|)
        invariant Contents() == old(Contents())
      {
        if !GoodTensor(f.value, k, |classes|) {
          return false;
        }
      }
      ok := true;
      ghost var target := WeightsIn(f.value);
      for k := 0 to |TENSORS|
        invariant forall j :: 0 <= j < k ==> tensors[j][..] == target[j]
      {
        assert GoodTensor(f.value, k, |classes|);
        SetAll(tensors[k], f.value.tensors[TENSORS[k]]);
      }
      assert Contents() == target;
    }

    method Predict(input: array<real>, exp: real -> real, sqrt: real -> real) returns (r: Prediction)
      requires Valid() && input.Length == INPUT && IsExp(exp) && IsSqrt(sqrt)
      ensures r == PredictionFor(input[..], exp, sqrt)
    {
      hide Dense, LayerNorm, Classify, IsExp, IsSqrt, Hidden;
      var a2 := HiddenLayers(input, exp);
      var norm := NormalizeLayer(a2, sqrt);
      var logits := DenseLayer(tensors[11], tensors[10], norm);
      r := ReadOut(logits, classes, exp);
    }

    /** The five stages before the normalisation. */
    method HiddenLayers(input: array<real>, exp: real -> real) returns (a2: array<real>)
      requires Valid() && input.Length == INPUT
      ensures fresh(a2) && a2[..] == Hidden(Contents(), |classes|, input[..], exp)
    {
      hide Dense, Activate, Residual, Gated;
      var a1 := ActivatedLayer(tensors[1], tensors[0], input);
      var res := ResidualLayer(tensors[3], tensors[2], a1);
      var attn := GatedLayer(tensors[5], tensors[4], res, exp);
      var res2 := ResidualLayer(tensors[7], tensors[6], attn);
      a2 := ActivatedLayer(tensors[9], tensors[8], res2);
    }
  }

  /** Weights saved by one classifier and loaded into another: loading succeeds exactly when both have
      the same classes and no weight exceeds the limit, and then both predict the same for every input. */
  method Reload(trained: NeuralThreatClassifier, loaded: NeuralThreatClassifier, exp: real -> real, sqrt: real -> real)
    returns (ok: bool)
    requires trained.Valid() && loaded.Valid()
    modifies loaded.tensors
    ensures ok <==> trained.classes == loaded.classes && WithinLimit(old(trained.Contents()))
    ensures ok ==> forall x :: |x| == INPUT ==>
                                 loaded.PredictionFor(x, exp, sqrt) == old(trained.PredictionFor(x, exp, sqrt))
    ensures !ok ==> loaded.Contents() == old(loaded.Contents())
  {
    hide Shaped, Accepts, WithinLimit, FileOf, WeightsIn, Logits, Classify;
    var file := trained.ExportWeights();
    AcceptsOnlySameClasses(trained.Contents(), trained.classes, loaded.classes);
    ExportThenLoad(trained.Contents(), trained.classes);
    ok := loaded.LoadWeights(Some(file));
  }

  lemma AcceptsOnlySameClasses(w: Weights, classes: seq<string>, others: seq<string>)
    requires Shaped(w, |classes|)
    ensures Accepts(Some(FileOf(w, classes)), others) ==> others == classes
  {
  }

  method SetAll(a: array<real>, values: seq<Parsed>)
    requires a.Length == |values|
    modifies a
    ensures a[..] == NumbersOf(values)
  {
    for i := 0 to a.Length
      invariant forall j :: 0 <= j < i ==> a[j] == NumbersOf(values)[j]
    {
      a[i] := if values[i].Num? then values[i].value else 0.0;
    }
    assert a[..] == NumbersOf(values);
  }

  /** The first probability that exceeds all earlier ones, starting from -1. */
  method Best(probs: array<real>, classes: seq<string>)
    returns (bestIdx: nat, maxProb: real, classProbabilities: map<string, real>)
    requires probs.Length == |classes| > 0 && probs[0] > -1.0
    ensures bestIdx == ArgmaxTo(probs[..], probs.Length) && maxProb == probs[bestIdx]
    ensures classProbabilities == ByClass(classes, probs[..], probs.Length)
  {
    bestIdx, maxProb, classProbabilities := 0, -1.0, map[];
    for c := 0 to probs.Length
      invariant c > 0 ==> bestIdx == ArgmaxTo(probs[..], c) && maxProb == probs[bestIdx]
      invariant c == 0 ==> maxProb == -1.0
      invariant classProbabilities == ByClass(classes, probs[..], c)
    {
      classProbabilities := classProbabilities[classes[c] := probs[c]];
      if probs[c] > maxProb {
        maxProb, bestIdx := probs[c], c;
      }
    }
  }

  method ReadOut(logits: array<real>, classes: seq<string>, exp: real -> real) returns (r: Prediction)
    requires logits.Length == |classes| && IsExp(exp)
    ensures r == Classify(logits[..], classes, exp)
  {
    hide SoftmaxOf, IsExp, SumTo, IsFirstMaximum, ArgmaxTo;
    if logits.Length == 0 {
      return Prediction(None, -1.0, [], map[]);
    }
    var probs := Softmax(logits, exp);
    assert probs[0] > -1.0 by {
      SoftmaxIsDistribution(logits[..], exp);
      assert probs[..][0] > 0.0;
    }
    var bestIdx, maxProb, classProbabilities := Best(probs, classes);
    r := Prediction(Some(classes[bestIdx]), maxProb, probs[..], classProbabilities);
  }
}
