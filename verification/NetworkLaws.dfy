/**
 What the layers of the threat classifier compute together: laws of each layer on its inputs, the network
 of one channel written out, and the effect of every tensor on the logits.
 */
module NetworkLaws {
  import opened Numbers
  import opened Vectors
  import opened NeuralClassifier

  // ----- one layer -----

  /** A vector that is `c` at place `i` and zero elsewhere. */
  function At(n: nat, i: nat, c: real): (r: seq<real>)
    ensures |r| == n
  {
    seq(n, j requires 0 <= j < n => if j == i then c else 0.0)
  }

  function Plus(x: seq<real>, y: seq<real>): (r: seq<real>)
    requires |x| == |y|
    ensures |r| == |x|
  {
    seq(|x|, i requires 0 <= i < |x| => x[i] + y[i])
  }

  lemma {:induction false} ColumnPicks(i: nat, c: real, w: seq<real>, rows: nat, cols: nat, j: nat, n: nat)
    requires n <= rows && i < rows && j < cols && |w| == rows * cols
    ensures 0 <= i * cols + j < |w|
    ensures Column(At(rows, i, c), w, cols, j, n) == if i < n then c * w[i * cols + j] else 0.0
  {
    InMatrix(i, rows, cols, j);
    if n > 0 {
      ColumnPicks(i, c, w, rows, cols, j, n - 1);
      InMatrix(n - 1, rows, cols, j);
    }
  }

  lemma {:induction false} ColumnAdds(x: seq<real>, y: seq<real>, w: seq<real>, cols: nat, j: nat, n: nat)
    requires n <= |x| == |y| && j < cols && |w| == |x| * cols
    ensures Column(Plus(x, y), w, cols, j, n) == Column(x, w, cols, j, n) + Column(y, w, cols, j, n)
  {
    if n > 0 {
      ColumnAdds(x, y, w, cols, j, n - 1);
      InMatrix(n - 1, |x|, cols, j);
      Distribute(x[n - 1], y[n - 1], w[(n - 1) * cols + j]);
    }
  }

  /** A layer is its bias plus, for each input, that input times its row of the matrix: so for an input
      with one entry, and the effects of two inputs add up. */
  lemma DenseIsAffine(b: seq<real>, w: seq<real>, x: seq<real>, y: seq<real>, i: nat, c: real, j: nat)
    requires |x| == |y| && |w| == |x| * |b| && i < |x| && j < |b|
    ensures 0 <= i * |b| + j < |w|
    ensures Dense(b, w, At(|x|, i, c))[j] == b[j] + c * w[i * |b| + j]
    ensures Dense(b, w, Plus(x, y))[j] + b[j] == Dense(b, w, x)[j] + Dense(b, w, y)[j]
  {
    ColumnPicks(i, c, w, |x|, |b|, j, |x|);
    ColumnAdds(x, y, w, |b|, j, |x|);
  }

  /** Positive values pass, others are divided by a hundred. */
  lemma LeakyReluOnInputs(x: real)
    ensures x >= 0.0 ==> LeakyRelu(x) == x
    ensures x < 0.0 ==> LeakyRelu(x) * 100.0 == x
  {
  }

  /** The exponent the gate uses. */
  function Clamp(x: real): real {
    if x > 10.0 then -10.0 else if x < -10.0 then 10.0 else -x
  }

  lemma Reciprocal(e: real)
    requires e > 0.0
    ensures 0.0 < 1.0 / (1.0 + e) < 1.0 && 1.0 / (1.0 + e) * (1.0 + e) == 1.0
  {
  }

  lemma SigmoidIsReciprocal(exp: real -> real, x: real)
    requires IsExp(exp)
    ensures 0.0 < Sigmoid(x, exp) < 1.0 && Sigmoid(x, exp) * (1.0 + exp(Clamp(x))) == 1.0
    ensures exp(Clamp(x)) > 0.0
  {
    assert -Max(-10.0, Min(10.0, x)) == Clamp(x);
    assert exp(Clamp(x)) > 0.0;
    hide IsExp;
    Reciprocal(exp(Clamp(x)));
  }

  lemma SigmoidClamps(exp: real -> real, x: real, y: real)
    ensures Clamp(x) == Clamp(y) ==> Sigmoid(x, exp) == Sigmoid(y, exp)
  {
    assert -Max(-10.0, Min(10.0, x)) == Clamp(x);
    assert -Max(-10.0, Min(10.0, y)) == Clamp(y);
  }

  /** The gate is strictly between 0 and 1, one half at zero, given by its odds from -10 to 10 and
      constant beyond. */
  lemma SigmoidOnInputs(exp: real -> real, x: real)
    requires IsExp(exp)
    ensures 0.0 < Sigmoid(x, exp) < 1.0 && Sigmoid(0.0, exp) == 0.5
    ensures -10.0 <= x <= 10.0 ==> Sigmoid(x, exp) * (1.0 + exp(-x)) == 1.0
    ensures x >= 10.0 ==> Sigmoid(x, exp) == Sigmoid(10.0, exp)
    ensures x <= -10.0 ==> Sigmoid(x, exp) == Sigmoid(-10.0, exp)
  {
    SigmoidIsReciprocal(exp, x);
    SigmoidIsReciprocal(exp, 0.0);
    assert exp(0.0) == 1.0 && Clamp(0.0) == 0.0;
    assert -10.0 <= x <= 10.0 ==> Clamp(x) == -x;
    SigmoidClamps(exp, x, 10.0);
    SigmoidClamps(exp, x, -10.0);
    assert x >= 10.0 ==> Clamp(x) == Clamp(10.0);
    assert x <= -10.0 ==> Clamp(x) == Clamp(-10.0);
    hide *;
  }

  /** From -10 to 10 it rises strictly. */
  lemma SigmoidRises(exp: real -> real, x: real, y: real)
    requires IsExp(exp) && -10.0 <= x < y <= 10.0
    ensures Sigmoid(x, exp) < Sigmoid(y, exp)
  {
    SigmoidIsReciprocal(exp, x);
    SigmoidIsReciprocal(exp, y);
    assert Clamp(x) == -x && Clamp(y) == -y && exp(-y) < exp(-x);
    hide *;
    SmallerShare(Sigmoid(x, exp), 1.0 + exp(-x), Sigmoid(y, exp), 1.0 + exp(-y));
  }

  lemma SmallerShare(s: real, d: real, s': real, d': real)
    requires s * d == 1.0 && s' * d' == 1.0 && s > 0.0 && d > d' > 0.0
    ensures s < s'
  {
    assert s * d' < s * d;
    assert (s' - s) * d' == s' * d' - s * d';
    SameSign(s' - s, d');
  }

  function Zeros(n: nat): (r: seq<real>)
    ensures |r| == n
  {
    At(n, n, 0.0)
  }

  lemma {:induction false} ColumnOfZeros(x: seq<real>, cols: nat, j: nat, n: nat)
    requires n <= |x| && j < cols
    ensures Column(x, Zeros(|x| * cols), cols, j, n) == 0.0
  {
    if n > 0 {
      ColumnOfZeros(x, cols, j, n - 1);
      InMatrix(n - 1, |x|, cols, j);
    }
  }

  lemma DenseOfZeros(x: seq<real>)
    ensures Dense(Zeros(|x|), Zeros(|x| * |x|), x) == Zeros(|x|)
  {
    var out := Dense(Zeros(|x|), Zeros(|x| * |x|), x);
    forall j | 0 <= j < |x| ensures out[j] == 0.0 {
      ColumnOfZeros(x, |x|, j, |x|);
    }
    assert out == Zeros(|x|);
  }

  /** Without weights a residual block changes nothing, and the gate adds half of its input. */
  lemma BlocksWithoutWeights(x: seq<real>, exp: real -> real)
    requires IsExp(exp)
    ensures Residual(Dense(Zeros(|x|), Zeros(|x| * |x|), x), x) == x
    ensures Gated(Dense(Zeros(|x|), Zeros(|x| * |x|), x), x, exp) == Scale(x, 1.5)
  {
    DenseOfZeros(x);
    SigmoidOnInputs(exp, 0.0);
    hide Dense, Sigmoid, IsExp;
    assert Residual(Zeros(|x|), x) == x;
    assert Gated(Zeros(|x|), x, exp) == Scale(x, 1.5);
  }

  function Squares(v: seq<real>, mean: real): (r: seq<real>)
    ensures |r| == |v|
  {
    seq(|v|, i requires 0 <= i < |v| => (v[i] - mean) * (v[i] - mean))
  }

  lemma {:induction false} SquaresAreDot(v: seq<real>, mean: real, d: seq<real>, n: nat)
    requires n <= |v| == |d| && forall i :: 0 <= i < |v| ==> d[i] == v[i] - mean
    ensures SumTo(Squares(v, mean), n) == DotTo(d, d, n)
  {
    if n > 0 {
      SquaresAreDot(v, mean, d, n - 1);
    }
  }

  /** Normalising takes off the mean and divides by the root of the mean square deviation plus 0.00001. */
  lemma LayerNormOnInputs(v: seq<real>, sqrt: real -> real) returns (mean: real, std: real)
    requires v != [] && IsSqrt(sqrt)
    ensures mean * |v| as real == SumTo(v, |v|) && std > 0.0
    ensures (std * std - 0.00001) * |v| as real == SumTo(Squares(v, mean), |v|)
    ensures forall i :: 0 <= i < |v| ==> LayerNorm(v, sqrt)[i] * std == v[i] - mean
  {
    hide *;
    LayerNormIsScaled(v, sqrt);
    MeanTimes(v);
    DeviationsOnInputs(v);
    CenteredAt(v);
    mean, std := MeanOf(v), sqrt(Variance(v) + 0.00001);
    var d := Centered(v);
    Substitute(std, Variance(v), |v| as real, SumTo(Squares(v, mean), |v|));
    forall i | 0 <= i < |v| ensures LayerNorm(v, sqrt)[i] * std == v[i] - mean {
      Undivide(d, std, i);
    }
  }

  lemma CenteredAt(v: seq<real>)
    requires v != []
    ensures forall i :: 0 <= i < |v| ==> Centered(v)[i] == v[i] - MeanOf(v)
  {
    hide MeanOf;
  }

  lemma Substitute(std: real, variance: real, n: real, q: real)
    requires std * std == variance + 0.00001 && variance * n == q
    ensures (std * std - 0.00001) * n == q
  {
    assert std * std - 0.00001 == variance;
  }

  lemma DeviationsOnInputs(v: seq<real>)
    requires v != []
    ensures Variance(v) * |v| as real == SumTo(Squares(v, MeanOf(v)), |v|)
  {
    VarianceTimes(v);
    SquaresAreDot(v, MeanOf(v), Centered(v), |v|);
    hide MeanOf, Variance, SumTo, DotTo;
  }

  lemma Undivide(d: seq<real>, y: real, i: nat)
    requires y > 0.0 && i < |d|
    ensures i < |Scale(d, 1.0 / y)| && Scale(d, 1.0 / y)[i] * y == d[i]
  {
    assert 1.0 / y * y == 1.0;
    var c := 1.0 / y;
    assert d[i] * c * y == d[i] * (c * y);
  }

  /** A class's probability is that of the first maximal logit times the exponential of the difference of
      the logits, which is not taken below -20. */
  lemma SoftmaxOdds(logits: seq<real>, exp: real -> real, i: nat, j: nat)
    requires logits != [] && IsExp(exp) && IsFirstMaximum(logits, i) && j < |logits|
    ensures var p, gap := SoftmaxOf(logits, exp), logits[j] - logits[i];
            p[j] == p[i] * exp(if gap < -20.0 then -20.0 else gap)
  {
    ExpsKeepFirstMaximum(logits, exp, i);
    ArgmaxIsFirstMaximum(logits, |logits|);
    hide SumTo, MaxTo, IsExp, ArgmaxTo;
  }

  // ----- a network of one channel -----

  /** Twelve tensors, each with one weight in front. */
  function Narrow(c: seq<real>, outputs: nat): (w: Weights)
    requires |c| == 12 && outputs > 0
    ensures Shaped(w, outputs)
  {
    seq(12, k requires 0 <= k < 12 => At(SizeOf(k, outputs), 0, c[k]))
  }

  lemma NarrowDense(b: real, w: real, x: real, rows: nat, cols: nat)
    requires rows > 0 && cols > 0
    ensures Dense(At(cols, 0, b), At(rows * cols, 0, w), At(rows, 0, x)) == At(cols, 0, b + Times(x, w))
  {
    var bs, ws := At(cols, 0, b), At(rows * cols, 0, w);
    forall j | 0 <= j < cols ensures Dense(bs, ws, At(rows, 0, x))[j] == At(cols, 0, b + Times(x, w))[j] {
      ColumnPicks(0, x, ws, rows, cols, j, rows);
    }
  }

  lemma NarrowActivate(x: real, n: nat)
    ensures Activate(At(n, 0, x)) == At(n, 0, LeakyRelu(x))
  {
  }

  lemma NarrowResidual(x: real, skip: real, n: nat)
    ensures Residual(At(n, 0, x), At(n, 0, skip)) == At(n, 0, LeakyRelu(x) + skip)
  {
  }

  lemma NarrowGated(x: real, skip: real, exp: real -> real, n: nat)
    ensures Gated(At(n, 0, x), At(n, 0, skip), exp) == At(n, 0, Times(skip, Sigmoid(x, exp)) + skip)
  {
    hide Sigmoid, Times;
    TimesSign(0.0, Sigmoid(0.0, exp));
  }

  /** All hidden layers on one channel: an activated layer, a residual block, a gate, a second residual
      block and an activated bottleneck, each with its own weight and bias. */
  lemma NarrowHidden(c: seq<real>, outputs: nat, x: real, exp: real -> real,
                     a: real, r: real, g: real, r2: real, t: real)
    requires |c| == 12 && outputs > 0
    requires a == LeakyRelu(c[1] + Times(x, c[0]))
    requires r == LeakyRelu(c[3] + Times(a, c[2])) + a
    requires g == Times(r, Sigmoid(c[5] + Times(r, c[4]), exp)) + r
    requires r2 == LeakyRelu(c[7] + Times(g, c[6])) + g
    requires t == LeakyRelu(c[9] + Times(r2, c[8]))
    ensures Hidden(Narrow(c, outputs), outputs, At(INPUT, 0, x), exp) == At(HIDDEN2, 0, t)
  {
    hide Dense, Activate, Residual, Gated, LeakyRelu, Sigmoid, Times, At;
    NarrowDense(c[1], c[0], x, INPUT, HIDDEN1);
    NarrowActivate(c[1] + Times(x, c[0]), HIDDEN1);
    NarrowDense(c[3], c[2], a, HIDDEN1, HIDDEN1);
    NarrowResidual(c[3] + Times(a, c[2]), a, HIDDEN1);
    NarrowDense(c[5], c[4], r, HIDDEN1, HIDDEN1);
    NarrowGated(c[5] + Times(r, c[4]), r, exp, HIDDEN1);
    NarrowDense(c[7], c[6], g, HIDDEN1, HIDDEN1);
    NarrowResidual(c[7] + Times(g, c[6]), g, HIDDEN1);
    NarrowDense(c[9], c[8], r2, HIDDEN1, HIDDEN2);
    NarrowActivate(c[9] + Times(r2, c[8]), HIDDEN2);
  }

  lemma {:induction false} SumOfFirst(t: real, rows: nat, n: nat)
    requires n <= rows
    ensures SumTo(At(rows, 0, t), n) == if n > 0 then t else 0.0
  {
    if n > 0 {
      SumOfFirst(t, rows, n - 1);
    }
  }

  /** Normalising one channel among zeros keeps its sign. */
  lemma NarrowNorm(t: real, n: nat, sqrt: real -> real)
    requires n > 1 && IsSqrt(sqrt)
    ensures var u := LayerNorm(At(n, 0, t), sqrt)[0]; (u > 0.0 <==> t > 0.0) && (u < 0.0 <==> t < 0.0)
  {
    var v := At(n, 0, t);
    var mean, std := LayerNormOnInputs(v, sqrt);
    SumOfFirst(t, n, n);
    hide LayerNorm, IsSqrt;
    MeanBelow(t, mean, n as real);
    SameSign(LayerNorm(v, sqrt)[0], std);
  }

  lemma MeanBelow(t: real, mean: real, n: real)
    requires n > 1.0 && mean * n == t
    ensures t - mean > 0.0 <==> t > 0.0
    ensures t - mean < 0.0 <==> t < 0.0
  {
    assert t - mean == mean * (n - 1.0);
    SameSign(mean, n);
    SameSign(mean, n - 1.0);
  }

  lemma SameSign(x: real, c: real)
    requires c > 0.0
    ensures x * c > 0.0 <==> x > 0.0
    ensures x * c < 0.0 <==> x < 0.0
  {
  }

  lemma {:induction false} ColumnOfFirst(x: seq<real>, w: real, cols: nat, n: nat)
    requires n <= |x| && cols > 0 && |x| * cols > 0
    ensures Column(x, At(|x| * cols, 0, w), cols, 0, n) == if n > 0 then Times(x[0], w) else 0.0
  {
    if n > 0 {
      ColumnOfFirst(x, w, cols, n - 1);
      InMatrix(n - 1, |x|, cols, 0);
      assert n > 1 ==> (n - 1) * cols > 0;
    }
  }

  /** The values along the one channel: after the first layer, the first residual block, the gate, the
      second residual block and the bottleneck. */
  ghost predicate Channel(c: seq<real>, x: real, exp: real -> real, a: real, r: real, g: real, r2: real, t: real)
    requires |c| == 12
  {
    && a == LeakyRelu(c[1] + Times(x, c[0]))
    && r == LeakyRelu(c[3] + Times(a, c[2])) + a
    && g == Times(r, Sigmoid(c[5] + Times(r, c[4]), exp)) + r
    && r2 == LeakyRelu(c[7] + Times(g, c[6])) + g
    && t == LeakyRelu(c[9] + Times(r2, c[8]))
  }

  /** The first logit of the network of one channel: the output weight times a number of the sign of the
      bottleneck, plus the output bias. */
  lemma NarrowLogit(c: seq<real>, outputs: nat, x: real, exp: real -> real, sqrt: real -> real,
                    a: real, r: real, g: real, r2: real, t: real)
    returns (u: real)
    requires |c| == 12 && outputs > 0 && IsSqrt(sqrt) && Channel(c, x, exp, a, r, g, r2, t)
    ensures u == LayerNorm(At(HIDDEN2, 0, t), sqrt)[0] && (u > 0.0 <==> t > 0.0) && (u < 0.0 <==> t < 0.0)
    ensures Logits(Narrow(c, outputs), outputs, At(INPUT, 0, x), exp, sqrt)[0] == c[11] + Times(u, c[10])
  {
    NarrowHidden(c, outputs, x, exp, a, r, g, r2, t);
    NarrowNorm(t, HIDDEN2, sqrt);
    var norm := LayerNorm(At(HIDDEN2, 0, t), sqrt);
    u := norm[0];
    ColumnOfFirst(norm, c[10], outputs, HIDDEN2);
    hide LayerNorm, Hidden, Times, Column, IsSqrt, Channel;
  }

  /** One weight for each tensor. The bottleneck's bias makes it zero, except where the output weight is
      the one to be changed. */
  function Base(k: nat): (c: seq<real>)
    ensures |c| == 12
  {
    [1.0, 0.0, 1.0, 0.0, 0.0, 0.0, 1.0, 0.0, 1.0, if k == 10 then -5.0 else -6.0, 1.0, 0.0]
  }

  function Changed(k: nat): (c: seq<real>)
    requires k < 12
    ensures |c| == 12
  {
    Base(k)[k := [2.0, 1.0, 0.0, 1.0, 1.0, 1.0, 0.0, 1.0, 2.0, -5.0, 2.0, 1.0][k]]
  }

  lemma BaseChannel(k: nat, exp: real -> real)
    requires IsExp(exp)
    ensures Channel(Base(k), 1.0, exp, 1.0, 2.0, 3.0, 6.0, if k == 10 then 1.0 else 0.0)
  {
    SigmoidOnInputs(exp, 0.0);
    hide Sigmoid, IsExp;
  }

  lemma ChangedChannel(k: nat, exp: real -> real) returns (a: real, r: real, g: real, r2: real, t: real)
    requires k < 12 && IsExp(exp)
    ensures Channel(Changed(k), 1.0, exp, a, r, g, r2, t)
    ensures if k < 10 then t != 0.0 else t == if k == 10 then 1.0 else 0.0
  {
    if k == 4 || k == 5 {
      a, r, g, r2, t := ChangedGate(k, exp);
    } else {
      SigmoidOnInputs(exp, 0.0);
      hide Sigmoid, IsExp;
      if k <= 1 {
        a, r, g, r2, t := 2.0, 4.0, 6.0, 12.0, 6.0;
      } else if k == 2 {
        a, r, g, r2, t := 1.0, 1.0, 1.5, 3.0, -0.03;
      } else if k == 3 {
        a, r, g, r2, t := 1.0, 3.0, 4.5, 9.0, 3.0;
      } else {
        a, r, g, r2 := 1.0, 2.0, 3.0, if k == 6 then 3.0 else if k == 7 then 7.0 else 6.0;
        t := if k == 6 then -0.03 else if k == 8 then 6.0 else if k == 11 then 0.0 else 1.0;
      }
    }
  }

  /** A weight or a bias in the gate opens it by more than a half. */
  lemma ChangedGate(k: nat, exp: real -> real) returns (a: real, r: real, g: real, r2: real, t: real)
    requires 4 <= k <= 5 && IsExp(exp)
    ensures Channel(Changed(k), 1.0, exp, a, r, g, r2, t) && t != 0.0
  {
    var x := if k == 4 then 2.0 else 1.0;
    SigmoidOnInputs(exp, 0.0);
    SigmoidRises(exp, 0.0, x);
    hide Sigmoid, IsExp;
    a, r, g := 1.0, 2.0, Times(2.0, Sigmoid(x, exp)) + 2.0;
    r2, t := g + g, g + g - 6.0;
  }

  /** Each of the twelve tensors decides: two sets of weights that differ in it alone, and an input they
      give different logits. */
  lemma EveryTensorMatters(k: nat, outputs: nat, exp: real -> real, sqrt: real -> real)
    returns (w: Weights, w': Weights, x: seq<real>)
    requires k < |TENSORS| && outputs > 0 && IsExp(exp) && IsSqrt(sqrt)
    ensures Shaped(w, outputs) && Shaped(w', outputs) && |x| == INPUT
    ensures forall i :: 0 <= i < |TENSORS| && i != k ==> w[i] == w'[i]
    ensures Logits(w, outputs, x, exp, sqrt) != Logits(w', outputs, x, exp, sqrt)
  {
    x := At(INPUT, 0, 1.0);
    w, w' := Narrow(Base(k), outputs), Narrow(Changed(k), outputs);
    assert forall i :: 0 <= i < |TENSORS| && i != k ==> w[i] == w'[i];
    BaseChannel(k, exp);
    var a, r, g, r2, t := ChangedChannel(k, exp);
    hide *;
    var t0 := if k == 10 then 1.0 else 0.0;
    var u := NarrowLogit(Base(k), outputs, 1.0, exp, sqrt, 1.0, 2.0, 3.0, 6.0, t0);
    var u' := NarrowLogit(Changed(k), outputs, 1.0, exp, sqrt, a, r, g, r2, t);
    FirstLogitsDiffer(k, u, u');
  }

  lemma FirstLogitsDiffer(k: nat, u: real, u': real)
    requires k < 12 && if k < 10 then u == 0.0 && u' != 0.0 else u == u' && (k == 10 ==> u != 0.0)
    ensures Base(k)[11] + Times(u, Base(k)[10]) != Changed(k)[11] + Times(u', Changed(k)[10])
  {
    assert Base(k)[10] == 1.0 && Changed(k)[10] == if k == 10 then 2.0 else 1.0;
    assert Base(k)[11] == 0.0 && Changed(k)[11] == if k == 11 then 1.0 else 0.0;
  }

  /** The two residual blocks are not interchangeable: exchanging their tensors changes the logits. */
  lemma BlocksDiffer(outputs: nat, exp: real -> real, sqrt: real -> real) returns (w: Weights, x: seq<real>)
    requires outputs > 0 && IsExp(exp) && IsSqrt(sqrt)
    ensures Shaped(w, outputs) && |x| == INPUT
    ensures var swapped := w[2 := w[6]][3 := w[7]][6 := w[2]][7 := w[3]];
            && Shaped(swapped, outputs)
            && Logits(w, outputs, x, exp, sqrt) != Logits(swapped, outputs, x, exp, sqrt)
  {
    x := At(INPUT, 0, 1.0);
    w := Narrow(EARLY, outputs);
    assert w[2 := w[6]][3 := w[7]][6 := w[2]][7 := w[3]] == Narrow(LATE, outputs);
    ExchangedChannels(exp);
    assert EARLY[11] == LATE[11] == 0.0 && EARLY[10] == LATE[10] == 1.0;
    hide *;
    var u := NarrowLogit(EARLY, outputs, 1.0, exp, sqrt, 1.0, 2.0, 3.0, 3.0, 0.0);
    var u' := NarrowLogit(LATE, outputs, 1.0, exp, sqrt, 1.0, 1.0, 1.5, 2.5, -0.005);
    TimesOne(u);
    TimesOne(u');
  }

  /** A bias in the first residual block only, and in the second only. */
  const EARLY := [1.0, 0.0, 0.0, 1.0, 0.0, 0.0, 0.0, 0.0, 1.0, -3.0, 1.0, 0.0]
  const LATE := [1.0, 0.0, 0.0, 0.0, 0.0, 0.0, 0.0, 1.0, 1.0, -3.0, 1.0, 0.0]

  lemma TimesOne(x: real)
    ensures Times(x, 1.0) == x
  {
  }

  lemma ExchangedChannels(exp: real -> real)
    requires IsExp(exp)
    ensures Channel(EARLY, 1.0, exp, 1.0, 2.0, 3.0, 3.0, 0.0)
    ensures Channel(LATE, 1.0, exp, 1.0, 1.0, 1.5, 2.5, -0.005)
  {
    SigmoidOnInputs(exp, 0.0);
    hide Sigmoid, IsExp;
  }
}
