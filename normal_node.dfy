/** `NormalAdjLogPDFNode` as an object, cases 1-5 (a scalar or vector
    sigma): the operands, their adjoints, the cached logarithm of sigma and
    the shortcuts the node keeps for constant operands. Each case evaluates
    the density and its adjoints in its own closed form; the lemmas here
    show that every closed form is the density and the gradient of
    `Normal`. */
module NormalNodes {
  import opened Numeric
  import opened StatArgs
  import opened Normal
  import opened NormalForms
  import NormalRef

  /** `log(sigma_i)` of every entry of a vector sigma. */
  function Logs(log: real -> real, ss: seq<real>): seq<real>
  {
    seq(|ss|, i requires 0 <= i < |ss| => log(ss[i]))
  }

  // The closed forms of the density.

  /** A shared sigma: `||z||^2 = ||x - mean||^2 / s^2`. */
  lemma SharedSquares(x: Arg, mean: Arg, sigma: Arg)
    requires Shapes(x, mean, sigma) && x.Vector? && sigma.Scalar? && sigma.v > 0.0
    ensures SumSq(Zs(x, mean, sigma)) == OverSq(SumSq(Centred(x, mean, sigma)), sigma.v)
  {
    SumSqOverShared(Centred(x, mean, sigma), Zs(x, mean, sigma), sigma.v);
  }

  /** A shared sigma: the logarithms of sigma sum to `n log(s)`. */
  lemma SharedLogSigmas(log: real -> real, x: Arg, mean: Arg, sigma: Arg, n: real)
    requires Shapes(x, mean, sigma) && x.Vector? && sigma.Scalar? && sigma.v > 0.0
    requires n == |x.xs| as real
    ensures Sum(LogSigmas(log, x, mean, sigma)) == n * log(sigma.v)
  {
    var l := LogSigmas(log, x, mean, sigma);
    var k := Consts(|l|, log(sigma.v));
    forall i | 0 <= i < |l|
      ensures l[i] == k[i]
    {
      assert Sigma(x, mean, sigma, i) == sigma.v;
    }
    assert l == k;
    SumOfConsts(|l|, log(sigma.v));
  }

  /** A shared sigma (cases vss and vvs): `-||x - mean||^2 / (2 s^2) - n log(s)`. */
  lemma SharedLogDensity(log: real -> real, x: Arg, mean: Arg, sigma: Arg, n: real)
    requires Shapes(x, mean, sigma) && x.Vector? && sigma.Scalar? && sigma.v > 0.0
    requires n == |x.xs| as real
    ensures LogDensity(log, x, mean, sigma) ==
            Fin(-0.5 * OverSq(SumSq(Centred(x, mean, sigma)), sigma.v) - n * log(sigma.v))
  {
    SharedSquares(x, mean, sigma);
    SharedLogSigmas(log, x, mean, sigma, n);
  }

  /** Constant observations against a scalar mean (case vss): the cached
      mean `xbar` and spread `||x - xbar||^2` of the observations give the
      density at any mean `m` as `-(spread + n (m - xbar)^2) / (2 s^2) - n log(s)`. */
  lemma ConstXLogDensity(log: real -> real, x: Arg, mean: Arg, sigma: Arg, n: real, xbar: real, spread: real, c: real)
    requires Shapes(x, mean, sigma) && x.Vector? && mean.Scalar? && sigma.Scalar? && sigma.v > 0.0
    requires n == |x.xs| as real && Sum(Diffs(x.xs, xbar)) == 0.0
    requires spread == SumSq(Diffs(x.xs, xbar)) && c == mean.v - xbar
    ensures LogDensity(log, x, mean, sigma) == Fin(-0.5 * OverSq(spread + n * Sq(c), sigma.v) - n * log(sigma.v))
  {
    assert spread + n * Sq(c) == SumSq(Centred(x, mean, sigma)) by {
      CentredScalarMean(x, mean, sigma);
      ShiftedSpread(x.xs, xbar, mean.v, n, c);
    }
    SharedLogDensity(log, x, mean, sigma, n);
  }

  /** Against a scalar mean and sigma, the centred observations are `x - m`. */
  lemma CentredScalarMean(x: Arg, mean: Arg, sigma: Arg)
    requires Shapes(x, mean, sigma) && x.Vector? && mean.Scalar? && sigma.Scalar? && sigma.v > 0.0
    ensures Centred(x, mean, sigma) == Diffs(x.xs, mean.v)
  {
  }

  /** A sigma per observation (cases vsv and vvv): the logarithms of sigma
      sum entry by entry. */
  lemma EachLogDensity(log: real -> real, x: Arg, mean: Arg, sigma: Arg)
    requires Shapes(x, mean, sigma) && sigma.Vector? && SigmaPositive(sigma)
    ensures LogDensity(log, x, mean, sigma) == Fin(-0.5 * SumSq(Zs(x, mean, sigma)) - Sum(Logs(log, sigma.xs)))
  {
    var l, k := LogSigmas(log, x, mean, sigma), Logs(log, sigma.xs);
    forall i | 0 <= i < |l|
      ensures l[i] == k[i]
    {
      assert Sigma(x, mean, sigma, i) == sigma.xs[i];
    }
    assert l == k;
  }

  /** Constant observations and sigma against a scalar mean (case vsv): the
      three cached terms give the density at any mean `m`. */
  lemma ConstTermsLogDensity(log: real -> real, x: Arg, mean: Arg, sigma: Arg)
    requires Shapes(x, mean, sigma) && x.Vector? && mean.Scalar? && sigma.Vector? && SigmaPositive(sigma)
    ensures |x.xs| == |sigma.xs| && NoZero(sigma.xs)
    ensures LogDensity(log, x, mean, sigma) ==
            Fin(-0.5 * (SqTerm(x.xs, sigma.xs) - 2.0 * mean.v * LinTerm(x.xs, sigma.xs)
                        + mean.v * mean.v * ConstTerm(sigma.xs)) - Sum(Logs(log, sigma.xs)))
  {
    ZsStandardised(x, mean, sigma);
    EachLogDensity(log, x, mean, sigma);
    ExpandedSquares(x.xs, mean.v, sigma.xs);
  }

  /** Against a scalar mean and a sigma per observation, the standardised
      observations are `(x_i - m) / s_i`. */
  lemma ZsStandardised(x: Arg, mean: Arg, sigma: Arg)
    requires Shapes(x, mean, sigma) && x.Vector? && mean.Scalar? && sigma.Vector? && SigmaPositive(sigma)
    ensures |x.xs| == |sigma.xs| && NoZero(sigma.xs)
    ensures Zs(x, mean, sigma) == Standardised(x.xs, mean.v, sigma.xs)
  {
    var xs, m, ss := x.xs, mean.v, sigma.xs;
    assert NoZero(ss) by {
      forall i | 0 <= i < |ss|
        ensures ss[i] != 0.0
      {
        assert ss[i] > 0.0;
      }
    }
    var z, t := Zs(x, mean, sigma), Standardised(xs, m, ss);
    forall i | 0 <= i < |z|
      ensures z[i] == t[i]
    {
      assert Diff(x, mean, sigma, i) == xs[i] - m && Sigma(x, mean, sigma, i) == ss[i];
    }
    assert z == t;
  }

  // The closed forms of the gradient.

  /** A shared sigma: the sigma rates sum to `(||z||^2 - n) / s`. */
  lemma SharedSigmaSum(x: Arg, mean: Arg, sigma: Arg, n: real)
    requires Shapes(x, mean, sigma) && x.Vector? && sigma.Scalar? && sigma.v > 0.0
    requires n == |x.xs| as real
    ensures Sum(SigmaRates(x, mean, sigma)) == (SumSq(Zs(x, mean, sigma)) - n) / sigma.v
  {
    var z, sr, s := Zs(x, mean, sigma), SigmaRates(x, mean, sigma), sigma.v;
    var sq := seq(|z|, i requires 0 <= i < |z| => Sq(z[i]));
    var w := seq(|z|, i requires 0 <= i < |z| => sq[i] - 1.0);
    forall i | 0 <= i < |z|
      ensures sr[i] == w[i] / s
    {
      assert Diff(x, mean, sigma, i) / Sigma(x, mean, sigma, i) == z[i];
    }
    SumSqIsSum(z, sq);
    SumOver(w, sr, s);
    SumLessOnes(sq, w, n);
  }

  /** A shared sigma receives `(||x - mean||^2 / s^2 - n) / s` per unit
      seed. */
  lemma SharedSigmaGradSum(x: Arg, mean: Arg, sigma: Arg, n: real)
    requires Shapes(x, mean, sigma) && x.Vector? && sigma.Scalar? && sigma.v > 0.0
    requires n == |x.xs| as real
    ensures SigmaGrad(x, mean, sigma) == Scalar((OverSq(SumSq(Centred(x, mean, sigma)), sigma.v) - n) / sigma.v)
  {
    SharedSquares(x, mean, sigma);
    SharedSigmaSum(x, mean, sigma, n);
  }

  /** Against a shared sigma, a scalar mean receives `sum(x - mean) / s / s`
      per unit seed. */
  lemma SharedMeanGradSum(x: Arg, mean: Arg, sigma: Arg)
    requires Shapes(x, mean, sigma) && x.Vector? && mean.Scalar? && sigma.Scalar? && sigma.v > 0.0
    ensures MeanGrad(x, mean, sigma) == Scalar(Sum(Centred(x, mean, sigma)) / sigma.v / sigma.v)
  {
    var d, s := Centred(x, mean, sigma), sigma.v;
    SharedSigmaRates(x.xs, mean, s, d);
    SharedMeanRate(d, s);
  }

  /** A scalar mean against a sigma per observation receives
      `sum((x - mean) / s^2)` per unit seed. */
  lemma EachMeanGrad(x: Arg, mean: Arg, sigma: Arg)
    requires Shapes(x, mean, sigma) && x.Vector? && mean.Scalar? && sigma.Vector? && SigmaPositive(sigma)
    ensures |x.xs| == |sigma.xs| && NoZero(sigma.xs)
    ensures MeanGrad(x, mean, sigma) == Scalar(Sum(Weights(Diffs(x.xs, mean.v), sigma.xs)))
  {
    var n := |x.xs|;
    var o := Weights(Diffs(x.xs, mean.v), sigma.xs);
    var r := XRates(x, mean, sigma);
    forall i | 0 <= i < n
      ensures r[i] == Neg(o)[i]
    {
      XRateOverSq(x.xs[i] - mean.v, sigma.xs[i]);
    }
    assert r == Neg(o);
    SumNeg(o);
  }

  /** `a (1/s)(1/s) = a / s / s`: the `inv_s_sq` factor. */
  lemma InvSquare(a: real, s: real)
    requires s != 0.0
    ensures a * ((1.0 / s) * (1.0 / s)) == a / s / s
  {
    var t := 1.0 / s;
    assert a / s == a * t;
    assert a / s / s == (a * t) * t;
  }

  /** `a (1/s)(1/s) = a / (s s)`. */
  lemma InvSquareOverSq(a: real, s: real)
    requires s != 0.0
    ensures a * ((1.0 / s) * (1.0 / s)) == OverSq(a, s)
  {
    InvSquare(a, s);
    DivDiv(a, s, s);
  }

  /** `-(1 / (s s)) a / 2 = -(a / (s s)) / 2`: the `inv_s_sq` factor of
      case vss. */
  lemma HalfOverSq(a: real, s: real)
    requires s != 0.0
    ensures -0.5 * OverSq(1.0, s) * a == -0.5 * OverSq(a, s)
  {
    var p := s * s;
    assert OverSq(1.0, s) == 1.0 / p && OverSq(a, s) == a / p;
    assert a / p == a * (1.0 / p);
  }

  /** `k (a / (s s)) = (k a) / (s s)`. */
  lemma ScaleOverSq(k: real, a: real, s: real)
    requires s != 0.0
    ensures OverSq(k * a, s) == k * OverSq(a, s)
  {
    DivDiv(1.0, s, s);
    var p := s * s;
    var q := a / p;
    assert a == p * q;
    assert k * a == p * (k * q);
  }

  /** `n c c = n c^2`, as the constant-`x` case writes it. */
  lemma TimesSquare(n: real, c: real)
    ensures n * c * c == n * Sq(c)
  {
  }

  /** `(a b)(1/s) = a (b / s)`: the `inv_s` factor. */
  lemma TimesInv(a: real, b: real, s: real)
    requires s != 0.0
    ensures (a * b) * (1.0 / s) == a * (b / s)
  {
    assert b / s == b * (1.0 / s);
  }

  /** `XRate(d, s) = -d / s^2`. */
  lemma XRateOverSq(d: real, s: real)
    requires s != 0.0
    ensures XRate(d, s) == -OverSq(d, s)
  {
    XRateIsTextbook(d, s);
  }

  /** The observation seed of the shared-sigma cases,
      `(seed inv_s_sq) (m - x)`, and of a vector mean, `(seed inv_s_sq) (x - m)`. */
  lemma SharedObsSeed(seed: real, x: real, m: real, s: real, invSSq: real)
    requires s != 0.0 && invSSq == (1.0 / s) * (1.0 / s)
    ensures (seed * invSSq) * (m - x) == seed * XRate(x - m, s)
    ensures (seed * invSSq) * (x - m) == seed * -XRate(x - m, s)
  {
    XRateIsTextbook(x - m, s);
  }

  /** The seeds of the cases with a sigma per observation:
      `(seed / s^2) (m - x)`, `seed (m - x) / s^2` and `seed (x - m) / s^2`. */
  lemma EachObsSeed(seed: real, x: real, m: real, s: real)
    requires s != 0.0
    ensures OverSq(seed, s) * (m - x) == seed * XRate(x - m, s)
    ensures OverSq(seed * (m - x), s) == seed * XRate(x - m, s)
    ensures OverSq(seed * (x - m), s) == seed * -XRate(x - m, s)
  {
    var t := 1.0 / s;
    DivDiv(1.0, s, s);
    assert XRate(x - m, s) == -((x - m) * t * t);
    assert OverSq(seed, s) == seed * (t * t);
    assert OverSq(seed * (m - x), s) == seed * (m - x) * (t * t);
    assert OverSq(seed * (x - m), s) == seed * (x - m) * (t * t);
  }

  /** The sigma seed of the cases with a sigma per observation,
      `(seed / s) (((x - m) / s)^2 - 1)`. */
  lemma EachSigmaObs(seed: real, d: real, s: real)
    requires s != 0.0
    ensures (seed / s) * (Sq(d / s) - 1.0) == seed * SigmaRate(d, s)
  {
    var w := Sq(d / s) - 1.0;
    assert seed / s == seed * (1.0 / s);
    assert w / s == w * (1.0 / s);
  }

  // The seeds each case passes to its operands in backward evaluation.

  /** Case sss: `adj = seed z / sigma` for the mean, `-adj` for `x` and
      `seed (z^2 - 1) / sigma` for sigma. */
  method SssSeeds(seed: real, x: Arg, mean: Arg, sigma: Arg) returns (xSeed: Arg, meanSeed: Arg, sigmaSeed: Arg)
    requires Shapes(x, mean, sigma) && x.Scalar? && sigma.v > 0.0
    ensures xSeed == ScaleArg(seed, XGrad(x, mean, sigma))
    ensures meanSeed == ScaleArg(seed, MeanGrad(x, mean, sigma))
    ensures sigmaSeed == ScaleArg(seed, SigmaGrad(x, mean, sigma))
  {
    var s, d := sigma.v, x.v - mean.v;
    var invS := 1.0 / s;
    var z := d * invS;
    assert z == d / s;
    var adj := seed * z * invS;
    assert Diff(x, mean, sigma, 0) == d && Sigma(x, mean, sigma, 0) == s;
    assert XRates(x, mean, sigma) == [XRate(d, s)];
    assert SigmaRates(x, mean, sigma) == [SigmaRate(d, s)];
    assert Sum([XRate(d, s)]) == XRate(d, s) + Sum([]);
    assert Sum([SigmaRate(d, s)]) == SigmaRate(d, s) + Sum([]);
    TimesInv(seed, z, s);
    TimesInv(seed, Sq(z) - 1.0, s);
    xSeed, meanSeed, sigmaSeed := Scalar(-adj), Scalar(adj), Scalar(seed * (z * z - 1.0) * invS);
  }

  /** Against constant observations balanced about `xbar`, their spread
      and `c = m - xbar` give `spread + n c c = ||x - m||^2`. */
  lemma SpreadTotal(xs: seq<real>, m: real, xbar: real, spread: real, n: real, c: real)
    requires n == |xs| as real && Sum(Diffs(xs, xbar)) == 0.0
    requires spread == SumSq(Diffs(xs, xbar)) && c == m - xbar
    ensures spread + n * c * c == SumSq(Diffs(xs, m))
  {
    ShiftedSpread(xs, xbar, m, n, c);
    TimesSquare(n, c);
  }

  /** A unit seed `u = (t - n) / s` with `t = target / s^2` is
      `((spread + n c c) inv_s_sq - n) inv_s` when `spread + n c c` is `target`. */
  lemma SigmaUnitArith(u: real, t: real, spread: real, c: real, target: real, n: real, s: real, invS: real, invSSq: real)
    requires s != 0.0 && spread + n * c * c == target && invS == 1.0 / s && invSSq == invS * invS
    requires u == (t - n) / s && t == OverSq(target, s)
    ensures u == ((spread + n * c * c) * invSSq - n) * invS
  {
    var total := spread + n * c * c;
    InvSquareOverSq(total, s);
    var w := total * invSSq - n;
    assert w * invS == w / s;
  }

  /** The mean's unit seed from the cached mean `xbar` of the observations
      equals the one from the centred observations. */
  lemma ConstXMeanUnit(xs: seq<real>, m: real, xbar: real, n: real, s: real)
    requires n == |xs| as real && s != 0.0 && Sum(Diffs(xs, xbar)) == 0.0
    ensures n * (xbar - m) * ((1.0 / s) * (1.0 / s)) == Sum(Diffs(xs, m)) / s / s
  {
    CentredMeanSum(xs, xbar, m, n);
    InvSquare(n * (xbar - m), s);
  }

  /** Sigma's gradient in case vss from the cached mean and spread of
      constant observations. */
  lemma ConstXSigmaGrad(x: Arg, mean: Arg, sigma: Arg, xMean: real, xVar: real, n: real, c: real, invS: real, invSSq: real)
    requires Shapes(x, mean, sigma) && x.Vector? && mean.Scalar? && sigma.Scalar? && sigma.v > 0.0
    requires Sum(Diffs(x.xs, xMean)) == 0.0 && xVar == SumSq(Diffs(x.xs, xMean))
    requires n == |x.xs| as real && c == mean.v - xMean && invS == 1.0 / sigma.v && invSSq == invS * invS
    ensures SigmaGrad(x, mean, sigma) == Scalar(((xVar + n * c * c) * invSSq - n) * invS)
  {
    SpreadTotal(x.xs, mean.v, xMean, xVar, n, c);
    CentredScalarMean(x, mean, sigma);
    SharedSquares(x, mean, sigma);
    SharedSigmaSum(x, mean, sigma, n);
    SigmaUnitArith(Sum(SigmaRates(x, mean, sigma)), SumSq(Zs(x, mean, sigma)),
                   xVar, c, SumSq(Diffs(x.xs, mean.v)), n, sigma.v, invS, invSSq);
  }

  /** The mean's gradient in case vss from the cached mean of constant
      observations. */
  lemma ConstXMeanGrad(x: Arg, mean: Arg, sigma: Arg, xMean: real, n: real, invSSq: real)
    requires Shapes(x, mean, sigma) && x.Vector? && mean.Scalar? && sigma.Scalar? && sigma.v > 0.0
    requires Sum(Diffs(x.xs, xMean)) == 0.0
    requires n == |x.xs| as real && invSSq == (1.0 / sigma.v) * (1.0 / sigma.v)
    ensures MeanGrad(x, mean, sigma) == Scalar(n * (xMean - mean.v) * invSSq)
  {
    ConstXMeanUnit(x.xs, mean.v, xMean, n, sigma.v);
    ScalarMeanMeanGrad(x, mean, sigma);
  }

  /** Case vss with constant observations: sigma's seed from their cached
      mean `xbar` and spread, `seed ((spread + n c c) / s^2 - n) / s` with
      `c = mean - xbar`. */
  method ConstXSigmaSeed(seed: real, x: Arg, mean: Arg, sigma: Arg, xMean: real, xVar: real) returns (g: Arg)
    requires Shapes(x, mean, sigma) && x.Vector? && mean.Scalar? && sigma.Scalar? && sigma.v > 0.0
    requires Sum(Diffs(x.xs, xMean)) == 0.0 && xVar == SumSq(Diffs(x.xs, xMean))
    ensures g == ScaleArg(seed, SigmaGrad(x, mean, sigma))
  {
    var s, m, n := sigma.v, mean.v, |x.xs| as real;
    var invS := 1.0 / s;
    var invSSq := invS * invS;
    var c := m - xMean;
    var unit := ((xVar + n * c * c) * invSSq - n) * invS;
    ConstXSigmaGrad(x, mean, sigma, xMean, xVar, n, c, invS, invSSq);
    g := ScaleArg(seed, Scalar(unit));
  }

  /** Case vss with constant observations: the mean's seed from their
      cached mean, `seed n (xbar - mean) / s^2`. */
  method ConstXMeanSeed(seed: real, x: Arg, mean: Arg, sigma: Arg, xMean: real) returns (g: Arg)
    requires Shapes(x, mean, sigma) && x.Vector? && mean.Scalar? && sigma.Scalar? && sigma.v > 0.0
    requires Sum(Diffs(x.xs, xMean)) == 0.0
    ensures g == ScaleArg(seed, MeanGrad(x, mean, sigma))
  {
    var s, m, n := sigma.v, mean.v, |x.xs| as real;
    var invS := 1.0 / s;
    var invSSq := invS * invS;
    var unit := n * (xMean - m) * invSSq;
    ConstXMeanGrad(x, mean, sigma, xMean, n, invSSq);
    g := ScaleArg(seed, Scalar(unit));
  }

  /** A shared sigma's gradient from the cached `z_sq`, `(z_sq - n) / s`. */
  lemma SharedSigmaGrad(x: Arg, mean: Arg, sigma: Arg, n: real, zSq: real, invS: real)
    requires Shapes(x, mean, sigma) && x.Vector? && sigma.Scalar? && sigma.v > 0.0
    requires n == |x.xs| as real && zSq == OverSq(SumSq(Centred(x, mean, sigma)), sigma.v)
    requires invS == 1.0 / sigma.v
    ensures SigmaGrad(x, mean, sigma) == Scalar((zSq - n) * invS)
  {
    SharedSquares(x, mean, sigma);
    SharedSigmaSum(x, mean, sigma, n);
    UnitSwap(Sum(SigmaRates(x, mean, sigma)), SumSq(Zs(x, mean, sigma)), zSq, n, sigma.v, invS);
  }

  /** `(t - n) / s = (z_sq - n) inv_s` once `t` is known to be `z_sq`. */
  lemma UnitSwap(u: real, t: real, zSq: real, n: real, s: real, invS: real)
    requires s != 0.0 && invS == 1.0 / s && u == (t - n) / s && t == zSq
    ensures u == (zSq - n) * invS
  {
  }

  /** Against a scalar mean and sigma, sigma's gradient in terms of the
      deviations `x - m`. */
  lemma ScalarMeanSigmaGrad(x: Arg, mean: Arg, sigma: Arg, n: real)
    requires Shapes(x, mean, sigma) && x.Vector? && mean.Scalar? && sigma.Scalar? && sigma.v > 0.0
    requires n == |x.xs| as real
    ensures SigmaGrad(x, mean, sigma) == Scalar((OverSq(SumSq(Diffs(x.xs, mean.v)), sigma.v) - n) / sigma.v)
  {
    CentredScalarMean(x, mean, sigma);
    SharedSigmaGradSum(x, mean, sigma, n);
  }

  /** A scalar mean's gradient against a shared sigma from the cached
      `inv_s_sq`, `sum(x - mean) inv_s_sq`. */
  lemma SharedMeanGrad(x: Arg, mean: Arg, sigma: Arg, invS: real, invSSq: real)
    requires Shapes(x, mean, sigma) && x.Vector? && mean.Scalar? && sigma.Scalar? && sigma.v > 0.0
    requires invS == 1.0 / sigma.v && invSSq == invS * invS
    ensures MeanGrad(x, mean, sigma) == Scalar(Sum(Centred(x, mean, sigma)) * invSSq)
  {
    SharedMeanGradSum(x, mean, sigma);
    InvSquare(Sum(Centred(x, mean, sigma)), sigma.v);
  }

  /** Against a scalar mean and sigma, the mean's gradient in terms of the
      deviations `x - m`. */
  lemma ScalarMeanMeanGrad(x: Arg, mean: Arg, sigma: Arg)
    requires Shapes(x, mean, sigma) && x.Vector? && mean.Scalar? && sigma.Scalar? && sigma.v > 0.0
    ensures MeanGrad(x, mean, sigma) == Scalar(Sum(Diffs(x.xs, mean.v)) / sigma.v / sigma.v)
  {
    CentredScalarMean(x, mean, sigma);
    SharedMeanGradSum(x, mean, sigma);
  }

  /** Cases vss and vvs: sigma's seed from the cached `z_sq`,
      `seed (z_sq - n) / s`. */
  method SharedSigmaSeed(seed: real, x: Arg, mean: Arg, sigma: Arg, zSq: real) returns (g: Arg)
    requires Shapes(x, mean, sigma) && x.Vector? && sigma.Scalar? && sigma.v > 0.0
    requires zSq == OverSq(SumSq(Centred(x, mean, sigma)), sigma.v)
    ensures g == ScaleArg(seed, SigmaGrad(x, mean, sigma))
  {
    var s, n := sigma.v, |x.xs| as real;
    var invS := 1.0 / s;
    var unit := (zSq - n) * invS;
    SharedSigmaGrad(x, mean, sigma, n, zSq, invS);
    g := ScaleArg(seed, Scalar(unit));
  }

  /** Case vss: a scalar mean's seed is `seed sum(x - mean) / s^2`. */
  method SharedScalarMeanSeed(seed: real, x: Arg, mean: Arg, sigma: Arg) returns (g: Arg)
    requires Shapes(x, mean, sigma) && x.Vector? && mean.Scalar? && sigma.Scalar? && sigma.v > 0.0
    ensures g == ScaleArg(seed, MeanGrad(x, mean, sigma))
  {
    var s := sigma.v;
    var invS := 1.0 / s;
    var invSSq := invS * invS;
    var unit := Sum(Centred(x, mean, sigma)) * invSSq;
    SharedMeanGrad(x, mean, sigma, invS, invSSq);
    g := ScaleArg(seed, Scalar(unit));
  }

  /** Case vvs: a vector mean's seed is `seed (x - mean) / s^2` entry by entry. */
  method SharedVectorMeanSeed(seed: real, x: Arg, mean: Arg, sigma: Arg) returns (g: Arg)
    requires Shapes(x, mean, sigma) && x.Vector? && mean.Vector? && sigma.Scalar? && sigma.v > 0.0
    ensures g == ScaleArg(seed, MeanGrad(x, mean, sigma))
  {
    var s, n := sigma.v, |x.xs|;
    var invS := 1.0 / s;
    var invSSq := invS * invS;
    var xs, ms := x.xs, mean.xs;
    var adj := seq(n, i requires 0 <= i < n => (seed * invSSq) * (xs[i] - ms[i]));
    SharedVectorMeanSeeds(seed, x, mean, sigma, invSSq, adj);
    g := Vector(adj);
  }

  /** A vector mean's seed against a shared sigma, `(seed inv_s_sq) (x - mean)`
      entry by entry, is the seed times its gradient. */
  lemma SharedVectorMeanSeeds(seed: real, x: Arg, mean: Arg, sigma: Arg, invSSq: real, adj: seq<real>)
    requires Shapes(x, mean, sigma) && x.Vector? && mean.Vector? && sigma.Scalar? && sigma.v > 0.0
    requires invSSq == (1.0 / sigma.v) * (1.0 / sigma.v) && |adj| == |x.xs|
    requires forall i :: 0 <= i < |adj| ==> adj[i] == (seed * invSSq) * (x.xs[i] - mean.xs[i])
    ensures adj == Scale(seed, Neg(XRates(x, mean, sigma)))
  {
    var r := XRates(x, mean, sigma);
    forall i | 0 <= i < |adj|
      ensures adj[i] == Scale(seed, Neg(r))[i]
    {
      SharedObsSeed(seed, x.xs[i], mean.xs[i], sigma.v, invSSq);
    }
  }

  /** Cases vss and vvs: the observations' seed, `seed (mean - x) / s^2`. */
  method SharedXSeed(seed: real, x: Arg, mean: Arg, sigma: Arg) returns (g: Arg)
    requires Shapes(x, mean, sigma) && x.Vector? && sigma.Scalar? && sigma.v > 0.0
    ensures g == ScaleArg(seed, XGrad(x, mean, sigma))
  {
    var s, n := sigma.v, |x.xs|;
    var invS := 1.0 / s;
    var invSSq := invS * invS;
    var xs, r := x.xs, XRates(x, mean, sigma);
    var adj := seq(n, i requires 0 <= i < n => (seed * invSSq) * (At(mean, i) - xs[i]));
    forall i | 0 <= i < n
      ensures adj[i] == Scale(seed, r)[i]
    {
      SharedObsSeed(seed, xs[i], At(mean, i), s, invSSq);
    }
    assert adj == Scale(seed, r);
    g := Vector(adj);
  }

  /** Case vsv with constant observations and sigma: the mean's seed from
      the cached terms, `seed (lin - mean const)`. */
  method ConstTermsMeanSeed(seed: real, x: Arg, mean: Arg, sigma: Arg, linTerm: real, constTerm: real)
    returns (g: Arg)
    requires Shapes(x, mean, sigma) && x.Vector? && mean.Scalar? && sigma.Vector? && SigmaPositive(sigma)
    requires |x.xs| == |sigma.xs| && NoZero(sigma.xs)
    requires linTerm == LinTerm(x.xs, sigma.xs) && constTerm == ConstTerm(sigma.xs)
    ensures g == ScaleArg(seed, MeanGrad(x, mean, sigma))
  {
    EachMeanGrad(x, mean, sigma);
    LinMinusConst(x.xs, mean.v, sigma.xs);
    var meanAdj := linTerm - mean.v * constTerm;
    g := ScaleArg(seed, Scalar(meanAdj));
  }

  /** Entry `i` of the observations' seed against a vector mean,
      `seed (mean_i - x_i) / s_i^2`. */
  function EachXSeedAt(seed: real, x: Arg, mean: Arg, sigma: Arg, i: nat): real
    requires Shapes(x, mean, sigma) && sigma.Vector? && SigmaPositive(sigma) && i < |sigma.xs|
  {
    OverSq(seed * (At(mean, i) - x.xs[i]), sigma.xs[i])
  }

  /** Entry `i` of a vector mean's seed, `seed (x_i - mean_i) / s_i^2`. */
  function EachMeanSeedAt(seed: real, x: Arg, mean: Arg, sigma: Arg, i: nat): real
    requires Shapes(x, mean, sigma) && sigma.Vector? && SigmaPositive(sigma) && i < |sigma.xs|
  {
    OverSq(seed * (x.xs[i] - At(mean, i)), sigma.xs[i])
  }

  /** Entry `i` of sigma's seed, `(seed / s_i) (((x_i - mean_i) / s_i)^2 - 1)`. */
  function EachSigmaSeedAt(seed: real, x: Arg, mean: Arg, sigma: Arg, i: nat): real
    requires Shapes(x, mean, sigma) && sigma.Vector? && SigmaPositive(sigma) && i < |sigma.xs|
  {
    (seed / sigma.xs[i]) * (Sq((x.xs[i] - At(mean, i)) / sigma.xs[i]) - 1.0)
  }

  /** Each observation seed entry the node computes is the seed times the
      gradient's entry, in the scalar-mean and the vector-mean order. */
  lemma EachXSeedsAt(seed: real, x: Arg, mean: Arg, sigma: Arg, i: nat)
    requires Shapes(x, mean, sigma) && sigma.Vector? && SigmaPositive(sigma) && i < |sigma.xs|
    ensures Scale(seed, XRates(x, mean, sigma))[i] == OverSq(seed, sigma.xs[i]) * (At(mean, i) - x.xs[i])
    ensures Scale(seed, XRates(x, mean, sigma))[i] == EachXSeedAt(seed, x, mean, sigma, i)
  {
    RatesAt(x, mean, sigma, i);
    EachObsSeed(seed, x.xs[i], At(mean, i), sigma.xs[i]);
  }

  /** Each vector-mean seed entry is the seed times the gradient's entry. */
  lemma EachMeanSeedsAt(seed: real, x: Arg, mean: Arg, sigma: Arg, i: nat)
    requires Shapes(x, mean, sigma) && sigma.Vector? && SigmaPositive(sigma) && i < |sigma.xs|
    ensures Scale(seed, Neg(XRates(x, mean, sigma)))[i] == EachMeanSeedAt(seed, x, mean, sigma, i)
  {
    RatesAt(x, mean, sigma, i);
    EachObsSeed(seed, x.xs[i], At(mean, i), sigma.xs[i]);
  }

  /** Each sigma seed entry is the seed times the gradient's entry. */
  lemma EachSigmaSeedsAt(seed: real, x: Arg, mean: Arg, sigma: Arg, i: nat)
    requires Shapes(x, mean, sigma) && sigma.Vector? && SigmaPositive(sigma) && i < |sigma.xs|
    ensures Scale(seed, SigmaRates(x, mean, sigma))[i] == EachSigmaSeedAt(seed, x, mean, sigma, i)
  {
    RatesAt(x, mean, sigma, i);
    EachSigmaObs(seed, x.xs[i] - At(mean, i), sigma.xs[i]);
  }

  /** Cases vsv and vvv: sigma's seed, `(seed / s) (((x - mean) / s)^2 - 1)`
      entry by entry. */
  method EachSigmaSeed(seed: real, x: Arg, mean: Arg, sigma: Arg) returns (g: Arg)
    requires Shapes(x, mean, sigma) && sigma.Vector? && SigmaPositive(sigma)
    ensures g == ScaleArg(seed, SigmaGrad(x, mean, sigma))
  {
    var n := |sigma.xs|;
    var adj := seq(n, i requires 0 <= i < n => EachSigmaSeedAt(seed, x, mean, sigma, i));
    forall i | 0 <= i < n
      ensures adj[i] == Scale(seed, SigmaRates(x, mean, sigma))[i]
    {
      EachSigmaSeedsAt(seed, x, mean, sigma, i);
    }
    assert adj == Scale(seed, SigmaRates(x, mean, sigma));
    g := Vector(adj);
  }

  /** Cases vsv and vvv with a scalar mean: its seed is
      `seed sum((x - mean) / s^2)`. */
  method EachScalarMeanSeed(seed: real, x: Arg, mean: Arg, sigma: Arg) returns (g: Arg)
    requires Shapes(x, mean, sigma) && mean.Scalar? && sigma.Vector? && SigmaPositive(sigma)
    ensures g == ScaleArg(seed, MeanGrad(x, mean, sigma))
  {
    var n, m := |sigma.xs|, mean.v;
    EachMeanGrad(x, mean, sigma);
    var meanAdj := Sum(Weights(Diffs(x.xs, m), sigma.xs));
    g := ScaleArg(seed, Scalar(meanAdj));
  }

  /** Cases vvv: a vector mean's seed is `seed (x - mean) / s^2` entry by
      entry. */
  method EachVectorMeanSeed(seed: real, x: Arg, mean: Arg, sigma: Arg) returns (g: Arg)
    requires Shapes(x, mean, sigma) && mean.Vector? && sigma.Vector? && SigmaPositive(sigma)
    ensures g == ScaleArg(seed, MeanGrad(x, mean, sigma))
  {
    var n := |sigma.xs|;
    var adj := seq(n, i requires 0 <= i < n => EachMeanSeedAt(seed, x, mean, sigma, i));
    forall i | 0 <= i < n
      ensures adj[i] == Scale(seed, Neg(XRates(x, mean, sigma)))[i]
    {
      EachMeanSeedsAt(seed, x, mean, sigma, i);
    }
    assert adj == Scale(seed, Neg(XRates(x, mean, sigma)));
    g := Vector(adj);
  }

  /** Cases vsv and vvv: the observations' seed, `(seed / s^2) (mean - x)`
      against a scalar mean and `seed (mean - x) / s^2` against a vector one. */
  method EachXSeed(seed: real, x: Arg, mean: Arg, sigma: Arg) returns (g: Arg)
    requires Shapes(x, mean, sigma) && sigma.Vector? && SigmaPositive(sigma)
    ensures g == ScaleArg(seed, XGrad(x, mean, sigma))
  {
    var n := |sigma.xs|;
    var adj;
    if mean.Scalar? {
      adj := seq(n, i requires 0 <= i < n => OverSq(seed, sigma.xs[i]) * (At(mean, i) - x.xs[i]));
      forall i | 0 <= i < n
        ensures adj[i] == Scale(seed, XRates(x, mean, sigma))[i]
      {
        EachXSeedsAt(seed, x, mean, sigma, i);
      }
    } else {
      adj := seq(n, i requires 0 <= i < n => EachXSeedAt(seed, x, mean, sigma, i));
      forall i | 0 <= i < n
        ensures adj[i] == Scale(seed, XRates(x, mean, sigma))[i]
      {
        EachXSeedsAt(seed, x, mean, sigma, i);
      }
    }
    assert adj == Scale(seed, XRates(x, mean, sigma));
    g := Vector(adj);
  }

  /** `-(spread + n c c) / (2 s^2) - n log(s)` written with the factor
      `1 / (s s)` first, as case vss with constant observations computes it. */
  lemma ConstXArith(spread: real, n: real, c: real, s: real, invSSq: real, logS: real, l: real)
    requires s != 0.0 && invSSq == OverSq(1.0, s) && logS == l
    ensures -0.5 * invSSq * (spread + n * c * c) - n * logS ==
            -0.5 * OverSq(spread + n * Sq(c), s) - n * l
  {
    TimesSquare(n, c);
    HalfOverSq(spread + n * c * c, s);
  }

  /** The density of case vss in the order the cached terms are combined. */
  lemma ConstXCachedDensity(log: real -> real, x: Arg, mean: Arg, sigma: Arg, xMean: real, xVar: real,
                            logSigma: real, n: real, c: real, invSSq: real)
    requires Shapes(x, mean, sigma) && x.Vector? && mean.Scalar? && sigma.Scalar? && sigma.v > 0.0
    requires Sum(Diffs(x.xs, xMean)) == 0.0 && xVar == SumSq(Diffs(x.xs, xMean))
    requires logSigma == log(sigma.v) && n == |x.xs| as real && c == mean.v - xMean
    requires invSSq == OverSq(1.0, sigma.v)
    ensures LogDensity(log, x, mean, sigma) ==
            Fin(-0.5 * invSSq * (xVar + n * c * c) - n * logSigma)
  {
    ConstXLogDensity(log, x, mean, sigma, n, xMean, xVar, c);
    ConstXArith(xVar, n, c, sigma.v, invSSq, logSigma, log(sigma.v));
  }

  /** Case vss with constant observations: the density from their cached
      mean `xbar` and spread, `-(spread + n (mean - xbar)^2) / (2 s^2) - n log(s)`. */
  method ConstXDensity(log: real -> real, x: Arg, mean: Arg, sigma: Arg, xMean: real, xVar: real, logSigma: real)
    returns (v: Ext)
    requires Shapes(x, mean, sigma) && x.Vector? && mean.Scalar? && sigma.Scalar? && sigma.v > 0.0
    requires Sum(Diffs(x.xs, xMean)) == 0.0 && xVar == SumSq(Diffs(x.xs, xMean))
    requires logSigma == log(sigma.v)
    ensures v == LogDensity(log, x, mean, sigma)
  {
    var s, n := sigma.v, |x.xs| as real;
    var centered := mean.v - xMean;
    var invSSq := OverSq(1.0, s);
    ConstXCachedDensity(log, x, mean, sigma, xMean, xVar, logSigma, n, centered, invSSq);
    v := Fin(-0.5 * invSSq * (xVar + n * centered * centered) - n * logSigma);
  }

  class NormalNode {
    const log: real -> real
    /** Which operands are constants, whose adjoints nobody reads. */
    const xConst: bool
    const meanConst: bool
    const sigmaConst: bool
    var x: Arg
    var mean: Arg
    var sigma: Arg
    var xAdj: Arg
    var meanAdj: Arg
    var sigmaAdj: Arg
    var value: Ext
    /** `log(sigma)`, or the summed logarithms of a vector sigma. */
    var logSigma: real
    /** Every entry of a vector sigma is positive. */
    var isPosDef: bool
    /** `||x - mean||^2 / s^2` against a scalar sigma. */
    var zSq: real
    /** The mean and spread of constant observations (case vss). */
    var xMean: real
    var xVar: real
    /** The terms cached for constant observations and sigma (case vsv). */
    var sqTerm: real
    var linTerm: real
    var constTerm: real

    /** The sigma cache of `update_cache` describes sigma. */
    ghost predicate SigmaCached()
      reads this
    {
      if sigma.Scalar? then sigma.v > 0.0 ==> logSigma == log(sigma.v)
      else isPosDef == SigmaPositive(sigma) && (isPosDef ==> logSigma == Sum(Logs(log, sigma.xs)))
    }

    /** The shapes, and the caches a constant operand fills once, at
        construction. */
    ghost predicate Valid()
      reads this
    {
      Shapes(x, mean, sigma) &&
      SameShape(xAdj, x) && SameShape(meanAdj, mean) && SameShape(sigmaAdj, sigma) &&
      (sigmaConst ==> SigmaCached()) &&
      (xConst && x.Vector? && mean.Scalar? && sigma.Scalar? ==>
         |x.xs| > 0 && xMean == Mean(x.xs) && xVar == SumSq(Diffs(x.xs, xMean))) &&
      (xConst && sigmaConst && x.Vector? && mean.Scalar? && sigma.Vector? && SigmaPositive(sigma) ==>
         sqTerm == SqTerm(x.xs, sigma.xs) && linTerm == LinTerm(x.xs, sigma.xs) && constTerm == ConstTerm(sigma.xs))
    }

    /** The caches forward evaluation fills describe the operands. */
    ghost predicate Evaluated()
      reads this
      requires Valid()
    {
      SigmaCached() &&
      (x.Vector? && sigma.Scalar? && sigma.v > 0.0 && !(mean.Scalar? && xConst) ==>
         zSq == OverSq(SumSq(Centred(x, mean, sigma)), sigma.v))
    }

    /** The range test of backward evaluation: `sigma > 0`, or the cached
        `is_pos_def_`. */
    predicate InRange()
      reads this
      requires Valid()
    {
      if sigma.Scalar? then sigma.v > 0.0 else isPosDef
    }

    /** The constructor fills the caches of constant operands: the
        logarithm of a constant sigma, the mean and spread of constant
        observations against a scalar mean and sigma, and the three terms of
        constant observations and sigma against a scalar mean (when sigma is
        in range). */
    constructor (log: real -> real, x: Arg, mean: Arg, sigma: Arg,
                 xConst: bool, meanConst: bool, sigmaConst: bool)
      requires Shapes(x, mean, sigma)
      requires xConst && x.Vector? && mean.Scalar? && sigma.Scalar? ==> |x.xs| > 0
      ensures Valid()
      ensures this.log == log && this.x == x && this.mean == mean && this.sigma == sigma
      ensures this.xConst == xConst && this.meanConst == meanConst && this.sigmaConst == sigmaConst
      ensures xAdj == ZeroLike(x) && meanAdj == ZeroLike(mean) && sigmaAdj == ZeroLike(sigma)
    {
      this.log, this.x, this.mean, this.sigma := log, x, mean, sigma;
      this.xConst, this.meanConst, this.sigmaConst := xConst, meanConst, sigmaConst;
      xAdj, meanAdj, sigmaAdj := ZeroLike(x), ZeroLike(mean), ZeroLike(sigma);
      value, logSigma, isPosDef, zSq := Fin(0.0), 0.0, false, 0.0;
      xMean, xVar, sqTerm, linTerm, constTerm := 0.0, 0.0, 0.0, 0.0, 0.0;
      if sigmaConst {
        if sigma.Scalar? {
          logSigma := log(sigma.v);
        } else {
          var positive := SigmaPositive(sigma);
          isPosDef := positive;
          if positive {
            logSigma := Sum(Logs(log, sigma.xs));
          }
          if xConst && x.Vector? && mean.Scalar? && positive {
            sqTerm, linTerm, constTerm := SqTerm(x.xs, sigma.xs), LinTerm(x.xs, sigma.xs), ConstTerm(sigma.xs);
          }
        }
      }
      if xConst && x.Vector? && mean.Scalar? && sigma.Scalar? {
        var xbar := Mean(x.xs);
        xMean, xVar := xbar, SumSq(Diffs(x.xs, xbar));
      }
    }

    /** Forward evaluation stores the adjusted log-density: `-inf` out of
        range, else the case's closed form. A varying sigma refreshes its
        cache first, and the shared-sigma cases with varying observations
        cache `||x - mean||^2 / s^2` for backward evaluation. */
    method Feval() returns (v: Ext)
      requires Valid()
      modifies this
      ensures Valid() && Evaluated()
      ensures v == value == LogDensity(log, x, mean, sigma)
      ensures x == old(x) && mean == old(mean) && sigma == old(sigma)
      ensures xAdj == old(xAdj) && meanAdj == old(meanAdj) && sigmaAdj == old(sigmaAdj)
    {
      if sigma.Scalar? {
        if sigma.v <= 0.0 {
          v := NegInf;
          value := v;
          return;
        }
        if !sigmaConst {
          logSigma := log(sigma.v);
        }
        if x.Scalar? {
          v := SssValue();
        } else if mean.Scalar? && xConst {
          v := ConstXValue();
        } else {
          zSq := OverSq(SumSq(Centred(x, mean, sigma)), sigma.v);
          v := SharedValue();
        }
      } else {
        if !sigmaConst {
          isPosDef := SigmaPositive(sigma);
          if isPosDef {
            logSigma := Sum(Logs(log, sigma.xs));
          }
        }
        if !isPosDef {
          v := NegInf;
        } else if mean.Scalar? && xConst && sigmaConst {
          v := ConstTermsValue();
        } else {
          v := EachValue();
        }
      }
      value := v;
    }

    /** Case sss: `-z^2/2 - log(sigma)` with `z = (x - mean) / sigma`. */
    method SssValue() returns (v: Ext)
      requires Valid() && x.Scalar? && sigma.v > 0.0 && logSigma == log(sigma.v)
      ensures v == LogDensity(log, x, mean, sigma)
    {
      var z := (x.v - mean.v) / sigma.v;
      assert Zs(x, mean, sigma) == [z];
      assert LogSigmas(log, x, mean, sigma) == [logSigma];
      assert SumSq([z]) == Sq(z) + SumSq([]);
      assert Sum([logSigma]) == logSigma + Sum([]);
      HalfSquare(z);
      v := Fin(-0.5 * z * z - logSigma);
    }

    /** Case vss with constant observations, from their cached mean and
        spread. */
    method ConstXValue() returns (v: Ext)
      requires Valid() && x.Vector? && mean.Scalar? && sigma.Scalar? && xConst
      requires sigma.v > 0.0 && logSigma == log(sigma.v)
      ensures v == LogDensity(log, x, mean, sigma)
    {
      CentredSumZero(x.xs, |x.xs| as real);
      v := ConstXDensity(log, x, mean, sigma, xMean, xVar, logSigma);
    }

    /** Cases vss and vvs, from the cached `||x - mean||^2 / s^2`. */
    method SharedValue() returns (v: Ext)
      requires Valid() && x.Vector? && sigma.Scalar? && sigma.v > 0.0 && logSigma == log(sigma.v)
      requires zSq == OverSq(SumSq(Centred(x, mean, sigma)), sigma.v)
      ensures v == LogDensity(log, x, mean, sigma)
    {
      var n := |x.xs| as real;
      SharedLogDensity(log, x, mean, sigma, n);
      v := Fin(-0.5 * zSq - n * logSigma);
    }

    /** Case vsv with constant observations and sigma, from the three cached
        terms. */
    method ConstTermsValue() returns (v: Ext)
      requires Valid() && SigmaCached() && x.Vector? && mean.Scalar? && sigma.Vector?
      requires xConst && sigmaConst && isPosDef
      ensures v == LogDensity(log, x, mean, sigma)
    {
      ConstTermsLogDensity(log, x, mean, sigma);
      var m := mean.v;
      v := Fin(-0.5 * (sqTerm - 2.0 * m * linTerm + m * m * constTerm) - logSigma);
    }

    /** Cases vsv and vvv: `-||(x - mean) / sigma||^2 / 2` less the summed
        logarithms. */
    method EachValue() returns (v: Ext)
      requires Valid() && SigmaCached() && sigma.Vector? && isPosDef
      ensures v == LogDensity(log, x, mean, sigma)
    {
      EachLogDensity(log, x, mean, sigma);
      var xv, m, ss := x, mean, sigma.xs;
      var z := seq(|ss|, i requires 0 <= i < |ss| => (At(xv, i) - At(m, i)) / ss[i]);
      assert z == Zs(x, mean, sigma);
      v := Fin(-0.5 * SumSq(z) - logSigma);
    }

    /** Backward evaluation after forward evaluation: nothing for a zero
        seed or out of range; otherwise every operand that is not a constant
        receives the seed times its gradient, sigma first, then the mean,
        then `x`, each computed in its case's closed form. */
    method Beval(seed: real)
      requires Valid() && Evaluated()
      modifies this
      ensures Valid() && Evaluated()
      ensures x == old(x) && mean == old(mean) && sigma == old(sigma) && value == old(value)
      ensures xAdj == if xConst || seed == 0.0 || !SigmaPositive(sigma) then old(xAdj)
                      else AddArg(old(xAdj), ScaleArg(seed, XGrad(x, mean, sigma)))
      ensures meanAdj == if meanConst || seed == 0.0 || !SigmaPositive(sigma) then old(meanAdj)
                         else AddArg(old(meanAdj), ScaleArg(seed, MeanGrad(x, mean, sigma)))
      ensures sigmaAdj == if sigmaConst || seed == 0.0 || !SigmaPositive(sigma) then old(sigmaAdj)
                          else AddArg(old(sigmaAdj), ScaleArg(seed, SigmaGrad(x, mean, sigma)))
    {
      if seed == 0.0 || !InRange() {
        return;
      }
      var xSeed, meanSeed, sigmaSeed := Seeds(seed);
      if !sigmaConst {
        sigmaAdj := AddArg(sigmaAdj, sigmaSeed);
      }
      if !meanConst {
        meanAdj := AddArg(meanAdj, meanSeed);
      }
      if !xConst {
        xAdj := AddArg(xAdj, xSeed);
      }
    }

    /** The seeds of the current case, from the caches: each operand that
        is not a constant gets the seed times its gradient (a constant one's
        seed is not computed). */
    method Seeds(seed: real) returns (xSeed: Arg, meanSeed: Arg, sigmaSeed: Arg)
      requires Valid() && Evaluated() && SigmaPositive(sigma)
      ensures !xConst ==> xSeed == ScaleArg(seed, XGrad(x, mean, sigma))
      ensures meanSeed == ScaleArg(seed, MeanGrad(x, mean, sigma))
      ensures !sigmaConst ==> sigmaSeed == ScaleArg(seed, SigmaGrad(x, mean, sigma))
    {
      xSeed, sigmaSeed := ZeroLike(x), ZeroLike(sigma);
      if x.Scalar? {
        xSeed, meanSeed, sigmaSeed := SssSeeds(seed, x, mean, sigma);
      } else if sigma.Scalar? {
        if mean.Scalar? && xConst {
          CentredSumZero(x.xs, |x.xs| as real);
          if !sigmaConst {
            sigmaSeed := ConstXSigmaSeed(seed, x, mean, sigma, xMean, xVar);
          }
          meanSeed := ConstXMeanSeed(seed, x, mean, sigma, xMean);
        } else {
          if !sigmaConst {
            sigmaSeed := SharedSigmaSeed(seed, x, mean, sigma, zSq);
          }
          if mean.Scalar? {
            meanSeed := SharedScalarMeanSeed(seed, x, mean, sigma);
          } else {
            meanSeed := SharedVectorMeanSeed(seed, x, mean, sigma);
          }
          if !xConst {
            xSeed := SharedXSeed(seed, x, mean, sigma);
          }
        }
      } else if mean.Scalar? && xConst && sigmaConst {
        meanSeed := ConstTermsMeanSeed(seed, x, mean, sigma, linTerm, constTerm);
      } else {
        if !sigmaConst {
          sigmaSeed := EachSigmaSeed(seed, x, mean, sigma);
        }
        if mean.Scalar? {
          meanSeed := EachScalarMeanSeed(seed, x, mean, sigma);
        } else {
          meanSeed := EachVectorMeanSeed(seed, x, mean, sigma);
        }
        if !xConst {
          xSeed := EachXSeed(seed, x, mean, sigma);
        }
      }
    }
  }
}
