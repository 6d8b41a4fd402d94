/** `NormalAdjLogPDFNode`: the normal log-density of observations `x` with
    mean `mean` and standard deviation `sigma`, adjusted to omit the
    constant `(n/2) log(2 pi)`. Cases by operand shape: sss, vss, vvs, vsv,
    vvv (`x`, then `mean`, then `sigma`), and vsm, vvm with a covariance
    matrix (module `NormalCov`). */
module Normal {
  import opened Numeric
  import opened StatArgs
  import opened Dense
  import NormalRef

  /** The shapes of cases 1-5: a scalar observation comes with scalar
      parameters; a vector of observations with parameters that are scalars
      or have one entry per observation. */
  predicate Shapes(x: Arg, mean: Arg, sigma: Arg)
  {
    if x.Scalar? then mean.Scalar? && sigma.Scalar?
    else Conforms(mean, |x.xs|) && Conforms(sigma, |x.xs|)
  }

  /** The range test: `s > 0` for a scalar sigma, `is_pos_def_` (every
      entry positive) for a vector. */
  predicate SigmaPositive(sigma: Arg)
  {
    if sigma.Scalar? then sigma.v > 0.0
    else forall i :: 0 <= i < |sigma.xs| ==> sigma.xs[i] > 0.0
  }

  /** `x_i - mean_i`. */
  function Diff(x: Arg, mean: Arg, sigma: Arg, i: nat): real
    requires Shapes(x, mean, sigma) && i < Size(x)
  {
    At(x, i) - At(mean, i)
  }

  /** `sigma_i`, positive within range. */
  function Sigma(x: Arg, mean: Arg, sigma: Arg, i: nat): (s: real)
    requires Shapes(x, mean, sigma) && SigmaPositive(sigma) && i < Size(x)
    ensures s > 0.0
  {
    At(sigma, i)
  }

  /** `x - mean`, one entry per observation. */
  function Centred(x: Arg, mean: Arg, sigma: Arg): (d: seq<real>)
    requires Shapes(x, mean, sigma)
    ensures |d| == Size(x)
  {
    seq(Size(x), i requires 0 <= i < Size(x) => Diff(x, mean, sigma, i))
  }

  /** The standardised observations `z_i = (x_i - mean_i) / sigma_i`. */
  function Zs(x: Arg, mean: Arg, sigma: Arg): (z: seq<real>)
    requires Shapes(x, mean, sigma) && SigmaPositive(sigma)
    ensures |z| == Size(x)
  {
    seq(Size(x), i requires 0 <= i < Size(x) => Diff(x, mean, sigma, i) / Sigma(x, mean, sigma, i))
  }

  /** `log(sigma_i)` of every observation. */
  function LogSigmas(log: real -> real, x: Arg, mean: Arg, sigma: Arg): (l: seq<real>)
    requires Shapes(x, mean, sigma) && SigmaPositive(sigma)
    ensures |l| == Size(x)
  {
    seq(Size(x), i requires 0 <= i < Size(x) => log(Sigma(x, mean, sigma, i)))
  }

  /** The adjusted log-density: `-inf` for a sigma out of range, else
      `-||z||^2/2 - sum_i log(sigma_i)`. */
  function LogDensity(log: real -> real, x: Arg, mean: Arg, sigma: Arg): (r: Ext)
    requires Shapes(x, mean, sigma)
    ensures r == NegInf <==> !SigmaPositive(sigma)
  {
    if SigmaPositive(sigma) then Fin(-0.5 * SumSq(Zs(x, mean, sigma)) - Sum(LogSigmas(log, x, mean, sigma)))
    else NegInf
  }

  /** The adjoint of one observation per unit seed, `-z / sigma`. */
  function XRate(d: real, s: real): real
    requires s != 0.0
  {
    -(d / s) / s
  }

  /** The adjoint of one observation's sigma per unit seed,
      `(z^2 - 1) / sigma`. */
  function SigmaRate(d: real, s: real): real
    requires s != 0.0
  {
    (Sq(d / s) - 1.0) / s
  }

  /** `XRate` is the slope of the quadratic term in `x`: moving the
      observation by `h` changes `-z^2/2` by `h XRate` plus the curvature
      term, exactly. */
  lemma XRateIsSlope(d: real, s: real, h: real)
    requires s != 0.0
    ensures -0.5 * ((d + h) / s) * ((d + h) / s) ==
            -0.5 * (d / s) * (d / s) + h * XRate(d, s) - 0.5 * (h / s) * (h / s)
  {
    var u, v := d / s, h / s;
    assert (d + h) / s == u + v;
    assert h * XRate(d, s) == -(u * v) by {
      assert XRate(d, s) == -u / s;
    }
  }

  /** The density is homogeneous of degree `-1` per observation in
      `(x, mean, sigma)`: `d XRate + sigma SigmaRate = -1`. */
  lemma RatesHomogeneous(d: real, s: real)
    requires s != 0.0
    ensures d * XRate(d, s) + s * SigmaRate(d, s) == -1.0
  {
    var u := d / s;
    assert d * XRate(d, s) == -(u * u) by {
      assert d == u * s;
    }
    assert s * SigmaRate(d, s) == u * u - 1.0;
  }

  /** `-(x - mean) / sigma^2`, as the vector cases compute it. */
  lemma XRateIsTextbook(d: real, s: real)
    requires s != 0.0
    ensures XRate(d, s) == -d / (s * s)
    ensures XRate(d, s) == ((1.0 / s) * (1.0 / s)) * (-d)
  {
    DivDiv(-d, s, s);
    assert -(d / s) == (-d) / s;
    var t := 1.0 / s;
    assert d / s == d * t;
  }

  function XRates(x: Arg, mean: Arg, sigma: Arg): (r: seq<real>)
    requires Shapes(x, mean, sigma) && SigmaPositive(sigma)
    ensures |r| == Size(x)
  {
    seq(Size(x), i requires 0 <= i < Size(x) => XRate(Diff(x, mean, sigma, i), Sigma(x, mean, sigma, i)))
  }

  function SigmaRates(x: Arg, mean: Arg, sigma: Arg): (r: seq<real>)
    requires Shapes(x, mean, sigma) && SigmaPositive(sigma)
    ensures |r| == Size(x)
  {
    seq(Size(x), i requires 0 <= i < Size(x) => SigmaRate(Diff(x, mean, sigma, i), Sigma(x, mean, sigma, i)))
  }

  /** The gradient with respect to `x`, per unit seed. */
  function XGrad(x: Arg, mean: Arg, sigma: Arg): (g: Arg)
    requires Shapes(x, mean, sigma) && SigmaPositive(sigma)
    ensures SameShape(g, x)
  {
    var r := XRates(x, mean, sigma);
    if x.Scalar? then Scalar(r[0]) else Vector(r)
  }

  /** The gradient with respect to `mean`: a scalar mean collects minus every
      observation's adjoint, a vector one minus its own. */
  function MeanGrad(x: Arg, mean: Arg, sigma: Arg): (g: Arg)
    requires Shapes(x, mean, sigma) && SigmaPositive(sigma)
    ensures SameShape(g, mean)
  {
    var r := XRates(x, mean, sigma);
    if mean.Scalar? then Scalar(-Sum(r)) else Vector(Neg(r))
  }

  /** The gradient with respect to `sigma`: a scalar sigma collects every
      observation's rate. */
  function SigmaGrad(x: Arg, mean: Arg, sigma: Arg): (g: Arg)
    requires Shapes(x, mean, sigma) && SigmaPositive(sigma)
    ensures SameShape(g, sigma)
  {
    var r := SigmaRates(x, mean, sigma);
    if sigma.Scalar? then Scalar(Sum(r)) else Vector(r)
  }

  // Properties of the density and its gradient.

  /** The adjoints of the observations and of the mean cancel, as the
      density depends on `x - mean` only. */
  lemma XAndMeanGradsCancel(x: Arg, mean: Arg, sigma: Arg)
    requires Shapes(x, mean, sigma) && SigmaPositive(sigma)
    ensures Sum(Flat(XGrad(x, mean, sigma))) + Sum(Flat(MeanGrad(x, mean, sigma))) == 0.0
  {
    var r := XRates(x, mean, sigma);
    assert Flat(XGrad(x, mean, sigma)) == r;
    if mean.Vector? {
      SumNeg(r);
    } else {
      assert Sum([-Sum(r)]) == -Sum(r) + Sum([]);
    }
  }

  /** Shifting the observations and the mean together changes neither the
      density nor the gradients. */
  lemma ShiftInvariant(log: real -> real, x: Arg, mean: Arg, sigma: Arg, c: real)
    requires Shapes(x, mean, sigma)
    ensures Shapes(Shift(x, c), Shift(mean, c), sigma)
    ensures LogDensity(log, Shift(x, c), Shift(mean, c), sigma) == LogDensity(log, x, mean, sigma)
    ensures SigmaPositive(sigma) ==>
              XGrad(Shift(x, c), Shift(mean, c), sigma) == XGrad(x, mean, sigma) &&
              MeanGrad(Shift(x, c), Shift(mean, c), sigma) == MeanGrad(x, mean, sigma) &&
              SigmaGrad(Shift(x, c), Shift(mean, c), sigma) == SigmaGrad(x, mean, sigma)
  {
    var x', mean' := Shift(x, c), Shift(mean, c);
    forall i | 0 <= i < Size(x)
      ensures Diff(x', mean', sigma, i) == Diff(x, mean, sigma, i)
    {
      assert At(x', i) == At(x, i) + c && At(mean', i) == At(mean, i) + c;
    }
    if SigmaPositive(sigma) {
      assert Zs(x', mean', sigma) == Zs(x, mean, sigma);
      assert LogSigmas(log, x', mean', sigma) == LogSigmas(log, x, mean, sigma);
      assert XRates(x', mean', sigma) == XRates(x, mean, sigma);
      assert SigmaRates(x', mean', sigma) == SigmaRates(x, mean, sigma);
    }
  }

  /** A standardised observation is zero exactly when the observation equals
      its mean. */
  lemma StandardZero(d: real, s: real)
    requires s > 0.0
    ensures d / s == 0.0 <==> d == 0.0
  {
    if d / s == 0.0 {
      assert d == (d / s) * s;
    }
  }

  /** Within range the density peaks where every observation equals its
      mean: it never exceeds `-sum_i log(sigma_i)`, and reaches it exactly
      there. */
  lemma PeakAtMean(log: real -> real, x: Arg, mean: Arg, sigma: Arg)
    requires Shapes(x, mean, sigma) && SigmaPositive(sigma)
    ensures LogDensity(log, x, mean, sigma).r <= -Sum(LogSigmas(log, x, mean, sigma))
    ensures LogDensity(log, x, mean, sigma).r == -Sum(LogSigmas(log, x, mean, sigma)) <==>
            forall i :: 0 <= i < Size(x) ==> At(x, i) == At(mean, i)
  {
    var z := Zs(x, mean, sigma);
    SumSqZero(z);
    forall i | 0 <= i < Size(x)
      ensures z[i] == 0.0 <==> At(x, i) == At(mean, i)
    {
      StandardZero(Diff(x, mean, sigma, i), Sigma(x, mean, sigma, i));
    }
  }

  /** `p_i w_i` for every observation, a scalar parameter standing for
      every index. */
  function Weigh(p: Arg, n: nat, w: seq<real>): (t: seq<real>)
    requires Conforms(p, n) && |w| == n
    ensures |t| == n
  {
    seq(n, i requires 0 <= i < n => At(p, i) * w[i])
  }

  /** A gradient that sums the rates `w` for a scalar parameter and keeps
      them for a vector one. */
  function Collect(p: Arg, w: seq<real>): (g: Arg)
  {
    if p.Scalar? then Scalar(Sum(w)) else Vector(w)
  }

  /** A parameter against its collected gradient is the sum of its weighed
      rates. */
  lemma DotOfCollect(p: Arg, n: nat, w: seq<real>)
    requires Conforms(p, n) && |w| == n
    ensures |Flat(Collect(p, w))| == |Flat(p)|
    ensures Dot(Flat(p), Flat(Collect(p, w))) == Sum(Weigh(p, n, w))
  {
    if p.Scalar? {
      assert Dot([p.v], [Sum(w)]) == p.v * Sum(w) + Dot([], []);
      SumPointwiseScale(p.v, w, Weigh(p, n, w));
    } else {
      DotIsSum(p.xs, w);
      forall i | 0 <= i < n
        ensures Products(p.xs, w)[i] == Weigh(p, n, w)[i]
      {
        assert At(p, i) == p.xs[i];
      }
      assert Products(p.xs, w) == Weigh(p, n, w);
    }
  }

  /** Scaling `x`, `mean` and `sigma` together by `c` multiplies the density
      by `c^-n`, so the gradients satisfy Euler's relation
      `x . dx + mean . dmean + sigma . dsigma = -n`. */
  lemma EulerRelation(x: Arg, mean: Arg, sigma: Arg)
    requires Shapes(x, mean, sigma) && SigmaPositive(sigma)
    ensures |Flat(XGrad(x, mean, sigma))| == |Flat(x)|
    ensures |Flat(MeanGrad(x, mean, sigma))| == |Flat(mean)|
    ensures |Flat(SigmaGrad(x, mean, sigma))| == |Flat(sigma)|
    ensures Dot(Flat(x), Flat(XGrad(x, mean, sigma))) +
            Dot(Flat(mean), Flat(MeanGrad(x, mean, sigma))) +
            Dot(Flat(sigma), Flat(SigmaGrad(x, mean, sigma))) == -(Size(x) as real)
  {
    var n := Size(x);
    var r, sr := XRates(x, mean, sigma), SigmaRates(x, mean, sigma);
    GradsCollect(x, mean, sigma);
    DotOfCollect(x, n, r);
    DotOfCollect(mean, n, Neg(r));
    DotOfCollect(sigma, n, sr);
    EulerSums(x, mean, sigma);
    SumOfConsts(n, -1.0);
  }

  /** Euler's relation summed over the observations. */
  lemma EulerSums(x: Arg, mean: Arg, sigma: Arg)
    requires Shapes(x, mean, sigma) && SigmaPositive(sigma)
    ensures Sum(Weigh(x, Size(x), XRates(x, mean, sigma))) +
            Sum(Weigh(mean, Size(x), Neg(XRates(x, mean, sigma)))) +
            Sum(Weigh(sigma, Size(x), SigmaRates(x, mean, sigma))) == Sum(Consts(Size(x), -1.0))
  {
    forall i | 0 <= i < Size(x)
      ensures Weigh(x, Size(x), XRates(x, mean, sigma))[i] +
              Weigh(mean, Size(x), Neg(XRates(x, mean, sigma)))[i] +
              Weigh(sigma, Size(x), SigmaRates(x, mean, sigma))[i] == -1.0
    {
      EulerEntry(x, mean, sigma, i);
    }
    SumOfThree(Weigh(x, Size(x), XRates(x, mean, sigma)),
               Weigh(mean, Size(x), Neg(XRates(x, mean, sigma))),
               Weigh(sigma, Size(x), SigmaRates(x, mean, sigma)), -1.0, Size(x));
  }

  lemma EulerEntry(x: Arg, mean: Arg, sigma: Arg, i: nat)
    requires Shapes(x, mean, sigma) && SigmaPositive(sigma) && i < Size(x)
    ensures Weigh(x, Size(x), XRates(x, mean, sigma))[i] +
            Weigh(mean, Size(x), Neg(XRates(x, mean, sigma)))[i] +
            Weigh(sigma, Size(x), SigmaRates(x, mean, sigma))[i] == -1.0
  {
    var n := Size(x);
    var w1, w2, w3 := XRates(x, mean, sigma), Neg(XRates(x, mean, sigma)), SigmaRates(x, mean, sigma);
    RatesAt(x, mean, sigma, i);
    ObsEuler(At(x, i), At(mean, i), At(sigma, i), w1[i], w2[i], w3[i],
             Weigh(x, n, w1)[i], Weigh(mean, n, w2)[i], Weigh(sigma, n, w3)[i]);
  }

  lemma RatesAt(x: Arg, mean: Arg, sigma: Arg, i: nat)
    requires Shapes(x, mean, sigma) && SigmaPositive(sigma) && i < Size(x)
    ensures XRates(x, mean, sigma)[i] == XRate(At(x, i) - At(mean, i), At(sigma, i))
    ensures Neg(XRates(x, mean, sigma))[i] == -XRates(x, mean, sigma)[i]
    ensures SigmaRates(x, mean, sigma)[i] == SigmaRate(At(x, i) - At(mean, i), At(sigma, i))
  {
  }

  /** Euler's relation for one observation. */
  lemma ObsEuler(x: real, m: real, s: real, r: real, nr: real, sr: real, a: real, b: real, c: real)
    requires s != 0.0 && r == XRate(x - m, s) && sr == SigmaRate(x - m, s) && nr == -r
    requires a == x * r && b == m * nr && c == s * sr
    ensures a + b + c == -1.0
  {
    RatesHomogeneous(x - m, s);
    assert a + b == (x - m) * r;
  }

  /** Every gradient collects its rates. */
  lemma GradsCollect(x: Arg, mean: Arg, sigma: Arg)
    requires Shapes(x, mean, sigma) && SigmaPositive(sigma)
    ensures XGrad(x, mean, sigma) == Collect(x, XRates(x, mean, sigma))
    ensures MeanGrad(x, mean, sigma) == Collect(mean, Neg(XRates(x, mean, sigma)))
    ensures SigmaGrad(x, mean, sigma) == Collect(sigma, SigmaRates(x, mean, sigma))
  {
    var r := XRates(x, mean, sigma);
    SumNeg(r);
    if x.Scalar? {
      assert Sum(r) == r[0] + Sum([]);
    }
  }

  /** Three sequences whose entries add up to `k` everywhere sum to `n`
      copies of `k`. */
  lemma SumOfThree(a: seq<real>, b: seq<real>, c: seq<real>, k: real, n: nat)
    requires |a| == |b| == |c| == n
    requires forall i :: 0 <= i < n ==> a[i] + b[i] + c[i] == k
    ensures Sum(a) + Sum(b) + Sum(c) == Sum(Consts(n, k))
  {
    var ab := seq(n, i requires 0 <= i < n => a[i] + b[i]);
    SumPointwiseAdd(a, b, ab);
    SumPointwiseAdd(ab, c, Consts(n, k));
  }

  // Agreement with the reference oracles, shape by shape.

  /** One observation: the node's rates are the oracle's `dx` and
      `dsigma`. */
  lemma RatesMatchOracle(d: real, s: real)
    requires s != 0.0
    ensures XRate(d, s) == NormalRef.Dx(d, s)
    ensures SigmaRate(d, s) == NormalRef.DSigma(d, s)
  {
  }

  /** Terms divided by a common `s` sum to their sum divided by `s`. */
  lemma {:induction false} SumOver(v: seq<real>, t: seq<real>, s: real)
    requires s != 0.0 && |t| == |v|
    requires forall i :: 0 <= i < |t| ==> t[i] == v[i] / s
    ensures Sum(t) == Sum(v) / s
  {
    if |v| > 0 {
      SumOver(v[1..], t[1..], s);
      AddOver(v[0], Sum(v[1..]), s);
    }
  }

  lemma AddOver(a: real, b: real, s: real)
    requires s != 0.0
    ensures a / s + b / s == (a + b) / s
  {
  }

  lemma SumLessOnes(u: seq<real>, v: seq<real>, n: real)
    requires |v| == |u| && n == |u| as real
    requires forall i :: 0 <= i < |u| ==> v[i] == u[i] - 1.0
    ensures Sum(v) == Sum(u) - n
  {
    SumPointwiseAdd(u, Consts(|u|, -1.0), v);
    SumOfConsts(|u|, -1.0);
  }

  /** The oracle's `dx` and `dsigma` against a shared sigma are the node's
      rates, `dsigma` summed. */
  lemma SharedSigmaRates(xs: seq<real>, mean: Arg, s: real, d: seq<real>)
    requires s > 0.0 && Shapes(Vector(xs), mean, Scalar(s))
    requires |d| == |xs| && forall i :: 0 <= i < |d| ==> d[i] == xs[i] - At(mean, i)
    ensures NormalRef.DxShared(d, s) == XRates(Vector(xs), mean, Scalar(s))
    ensures NormalRef.DSigmaShared(d, s) == Sum(SigmaRates(Vector(xs), mean, Scalar(s)))
  {
    var X, S := Vector(xs), Scalar(s);
    var r, sr := XRates(X, mean, S), SigmaRates(X, mean, S);
    var z := seq(|d|, i requires 0 <= i < |d| => d[i] / s);
    var sq := seq(|d|, i requires 0 <= i < |d| => Sq(z[i]));
    var w := seq(|d|, i requires 0 <= i < |d| => sq[i] - 1.0);
    forall i | 0 <= i < |xs|
      ensures NormalRef.DxShared(d, s)[i] == r[i] && sr[i] == w[i] / s
    {
      assert Diff(X, mean, S, i) == d[i] && Sigma(X, mean, S, i) == s;
      RatesMatchOracle(d[i], s);
    }
    SumSqIsSum(z, sq);
    SumOver(w, sr, s);
    SumLessOnes(sq, w, |d| as real);
  }

  /** The oracle's `dx` and `dsigma` against a sigma per observation are the
      node's rates. */
  lemma EachSigmaRates(xs: seq<real>, mean: Arg, ss: seq<real>, d: seq<real>)
    requires |ss| == |xs| && SigmaPositive(Vector(ss)) && Shapes(Vector(xs), mean, Vector(ss))
    requires |d| == |xs| && forall i :: 0 <= i < |d| ==> d[i] == xs[i] - At(mean, i)
    ensures NoZero(ss)
    ensures NormalRef.DxEach(d, ss) == XRates(Vector(xs), mean, Vector(ss))
    ensures NormalRef.DSigmaEach(d, ss) == SigmaRates(Vector(xs), mean, Vector(ss))
  {
    var X, S := Vector(xs), Vector(ss);
    var r, sr := XRates(X, mean, S), SigmaRates(X, mean, S);
    forall i | 0 <= i < |xs|
      ensures NormalRef.DxEach(d, ss)[i] == r[i] && NormalRef.DSigmaEach(d, ss)[i] == sr[i]
    {
      assert Diff(X, mean, S, i) == d[i] && Sigma(X, mean, S, i) == ss[i];
      RatesMatchOracle(d[i], ss[i]);
    }
  }

  /** sss: within range the node's gradient is the oracle's. */
  lemma SssAgreesWithOracle(x: real, mean: real, s: real)
    requires s > 0.0
    ensures NormalRef.SssBeval(x, mean, s) ==
            Ok(Flat(XGrad(Scalar(x), Scalar(mean), Scalar(s))) +
               Flat(MeanGrad(Scalar(x), Scalar(mean), Scalar(s))) +
               Flat(SigmaGrad(Scalar(x), Scalar(mean), Scalar(s))))
  {
    var X, M, S := Scalar(x), Scalar(mean), Scalar(s);
    var d := x - mean;
    var dx, ds := NormalRef.Dx(d, s), NormalRef.DSigma(d, s);
    RatesMatchOracle(d, s);
    assert Diff(X, M, S, 0) == d && Sigma(X, M, S, 0) == s;
    assert XRates(X, M, S) == [dx];
    assert SigmaRates(X, M, S) == [ds];
    assert Sum([dx]) == dx + Sum([]);
    assert Sum([ds]) == ds + Sum([]);
    assert Flat(XGrad(X, M, S)) + Flat(MeanGrad(X, M, S)) + Flat(SigmaGrad(X, M, S)) == [dx] + [-dx] + [ds];
    assert [dx] + [-dx] + [ds] == [dx, -dx, ds];
  }

  /** `-sum(dx) = sum(d) / s^2` for the shared-sigma `dx`. */
  lemma SharedMeanRate(d: seq<real>, s: real)
    requires s != 0.0
    ensures -Sum(NormalRef.DxShared(d, s)) == Sum(d) / s / s
  {
    var a := seq(|d|, i requires 0 <= i < |d| => d[i] / s);
    var b := seq(|d|, i requires 0 <= i < |d| => a[i] / s);
    SumOver(d, a, s);
    SumOver(a, b, s);
    forall i | 0 <= i < |d|
      ensures NormalRef.DxShared(d, s)[i] == Neg(b)[i]
    {
      NegOver(a[i], s);
    }
    assert NormalRef.DxShared(d, s) == Neg(b);
    SumNeg(b);
  }

  lemma NegOver(a: real, s: real)
    requires s != 0.0
    ensures (-a) / s == -(a / s)
  {
  }

  /** vss: within range the node's gradient is the oracle's. */
  lemma VssAgreesWithOracle(xs: seq<real>, mean: real, s: real)
    requires s > 0.0
    ensures NormalRef.VssBeval(xs, mean, s) ==
            Ok(Flat(XGrad(Vector(xs), Scalar(mean), Scalar(s))) +
               Flat(MeanGrad(Vector(xs), Scalar(mean), Scalar(s))) +
               Flat(SigmaGrad(Vector(xs), Scalar(mean), Scalar(s))))
  {
    var X, M, S := Vector(xs), Scalar(mean), Scalar(s);
    var d := Diffs(xs, mean);
    SharedSigmaRates(xs, M, s, d);
    SharedMeanRate(d, s);
    var r, sr := XRates(X, M, S), SigmaRates(X, M, S);
    assert Flat(XGrad(X, M, S)) == r;
    assert Flat(MeanGrad(X, M, S)) == [-Sum(r)];
    assert Flat(SigmaGrad(X, M, S)) == [Sum(sr)];
    assert r + [-Sum(r)] + [Sum(sr)] == r + [-Sum(r), Sum(sr)];
  }

  /** vvs: within range the node's gradient is the oracle's. */
  lemma VvsAgreesWithOracle(xs: seq<real>, means: seq<real>, s: real)
    requires |means| == |xs| && s > 0.0
    ensures NormalRef.VvsBeval(xs, means, s) ==
            Ok(Flat(XGrad(Vector(xs), Vector(means), Scalar(s))) +
               Flat(MeanGrad(Vector(xs), Vector(means), Scalar(s))) +
               Flat(SigmaGrad(Vector(xs), Vector(means), Scalar(s))))
  {
    var X, M, S := Vector(xs), Vector(means), Scalar(s);
    var d := PairDiffs(xs, means);
    SharedSigmaRates(xs, M, s, d);
    var r, sr := XRates(X, M, S), SigmaRates(X, M, S);
    assert Flat(XGrad(X, M, S)) == r;
    assert Flat(MeanGrad(X, M, S)) == Neg(r);
    assert Flat(SigmaGrad(X, M, S)) == [Sum(sr)];
  }

  /** vsv: within range the node's gradient is the oracle's. */
  lemma VsvAgreesWithOracle(xs: seq<real>, mean: real, ss: seq<real>)
    requires |ss| == |xs| && SigmaPositive(Vector(ss))
    ensures NormalRef.VsvBeval(xs, mean, ss) ==
            Ok(Flat(XGrad(Vector(xs), Scalar(mean), Vector(ss))) +
               Flat(MeanGrad(Vector(xs), Scalar(mean), Vector(ss))) +
               Flat(SigmaGrad(Vector(xs), Scalar(mean), Vector(ss))))
  {
    var X, M, S := Vector(xs), Scalar(mean), Vector(ss);
    var d := Diffs(xs, mean);
    EachSigmaRates(xs, M, ss, d);
    var r := XRates(X, M, S);
    var q := NormalRef.DMuEach(d, ss);
    DxEachIsNeg(d, ss);
    SumNeg(q);
    assert Flat(XGrad(X, M, S)) == r;
    assert Flat(MeanGrad(X, M, S)) == [Sum(q)];
  }

  /** The oracle's `dmu` terms are minus its `dx`. */
  lemma DxEachIsNeg(d: seq<real>, ss: seq<real>)
    requires |d| == |ss| && NoZero(ss)
    ensures NormalRef.DxEach(d, ss) == Neg(NormalRef.DMuEach(d, ss))
  {
    var q := NormalRef.DMuEach(d, ss);
    forall i | 0 <= i < |d|
      ensures NormalRef.DxEach(d, ss)[i] == Neg(q)[i]
    {
      ObsDxIsNeg(d[i], ss[i], NormalRef.DxEach(d, ss)[i], q[i]);
    }
  }

  lemma ObsDxIsNeg(d: real, s: real, dx: real, q: real)
    requires s != 0.0 && dx == NormalRef.Dx(d, s) && q == d / s / s
    ensures dx == -q
  {
    NegOver(d / s, s);
  }

  /** vvv: within range the node's gradient is the oracle's. */
  lemma VvvAgreesWithOracle(xs: seq<real>, means: seq<real>, ss: seq<real>)
    requires |means| == |xs| && |ss| == |xs| && SigmaPositive(Vector(ss))
    ensures NormalRef.VvvBeval(xs, means, ss) ==
            Ok(Flat(XGrad(Vector(xs), Vector(means), Vector(ss))) +
               Flat(MeanGrad(Vector(xs), Vector(means), Vector(ss))) +
               Flat(SigmaGrad(Vector(xs), Vector(means), Vector(ss))))
  {
    var M := Vector(means);
    var d := PairDiffs(xs, means);
    EachSigmaRates(xs, M, ss, d);
  }

  /** One observation's reference log-density, the normalising constant
      added back, is the node's term. */
  lemma ObsAgreesWithOracle(log: real -> real, pi: real, x: Arg, mean: Arg, sigma: Arg, i: nat)
    requires Shapes(x, mean, sigma) && SigmaPositive(sigma) && i < Size(x)
    ensures At(sigma, i) > 0.0
    ensures NormalRef.LogPdf(log, pi, At(x, i), At(mean, i), At(sigma, i)).r ==
            -0.5 * Sq(Zs(x, mean, sigma)[i]) - LogSigmas(log, x, mean, sigma)[i] - NormalRef.LogNormConst(log, pi)
  {
    var z := Zs(x, mean, sigma)[i];
    assert Sigma(x, mean, sigma, i) == At(sigma, i);
    assert z == (At(x, i) - At(mean, i)) / At(sigma, i);
    HalfSquare(z);
  }

  lemma HalfSquare(z: real)
    ensures -0.5 * z * z == -0.5 * Sq(z)
  {
  }

  /** Forward evaluation within range agrees with the reference value, the
      summed scipy log-density with `(n/2) log(2 pi)` added back. */
  lemma FevalAgreesWithOracle(log: real -> real, pi: real, x: Arg, mean: Arg, sigma: Arg)
    requires Shapes(x, mean, sigma) && SigmaPositive(sigma)
    ensures Conforms(mean, Size(x)) && Conforms(sigma, Size(x))
    ensures LogDensity(log, x, mean, sigma) ==
            NormalRef.AdjLogPdf(log, pi, Broadcast(x, Size(x)), Broadcast(mean, Size(x)), Broadcast(sigma, Size(x)))
  {
    var n := Size(x);
    var xs, ms, ss := Broadcast(x, n), Broadcast(mean, n), Broadcast(sigma, n);
    var z, l := Zs(x, mean, sigma), LogSigmas(log, x, mean, sigma);
    var c := NormalRef.LogNormConst(log, pi);
    var sq := seq(n, i requires 0 <= i < n => Sq(z[i]));
    var t := NormalRef.LogPdfs(log, pi, xs, ms, ss);
    forall i | 0 <= i < n
      ensures ss[i] > 0.0
      ensures t[i] == Scale(-0.5, sq)[i] + Neg(l)[i] + Neg(Consts(n, c))[i]
    {
      assert xs[i] == At(x, i) && ms[i] == At(mean, i) && ss[i] == At(sigma, i);
      ObsAgreesWithOracle(log, pi, x, mean, sigma, i);
    }
    SumOfParts(t, Scale(-0.5, sq), Neg(l), Neg(Consts(n, c)));
    SumSqIsSum(z, sq);
    SumScale(-0.5, sq);
    SumNeg(l);
    SumNeg(Consts(n, c));
  }

  /** With a scalar sigma (`sss_feval`, `vss_feval`, `vvs_feval`) the
      reference as written returns the value above. */
  lemma FevalAgreesWithOracleAsWritten(log: real -> real, pi: real, x: Arg, mean: Arg, sigma: Arg)
    requires Shapes(x, mean, sigma) && SigmaPositive(sigma) && sigma.Scalar?
    ensures Conforms(mean, Size(x))
    ensures NormalRef.AdjLogPdfAsWritten(log, pi, Broadcast(x, Size(x)), Broadcast(mean, Size(x)), sigma) ==
            Ok(LogDensity(log, x, mean, sigma))
  {
    FevalAgreesWithOracle(log, pi, x, mean, sigma);
  }

  /** With a sigma per observation (`vsv_feval`, `vvv_feval`) the node has a
      finite log-density where the reference as written raises IndexError. */
  lemma VectorSigmaOracleRaises(log: real -> real, pi: real, x: Arg, mean: Arg, sigma: Arg)
    requires Shapes(x, mean, sigma) && SigmaPositive(sigma) && sigma.Vector?
    ensures Conforms(mean, Size(x))
    ensures LogDensity(log, x, mean, sigma).Fin?
    ensures NormalRef.AdjLogPdfAsWritten(log, pi, Broadcast(x, Size(x)), Broadcast(mean, Size(x)), sigma) == Err(ShapeIndex)
  {
  }

  /** The `vsv_feval` fixture: `x = [3.1, -2.3, 1.3]`, `mu = -0.2`,
      `sigma = [0.01, 1.03, 2.41]`. */
  lemma VsvFixtureOracleRaises(log: real -> real, pi: real)
    ensures LogDensity(log, Vector([3.1, -2.3, 1.3]), Scalar(-0.2), Vector([0.01, 1.03, 2.41])).Fin?
    ensures NormalRef.AdjLogPdfAsWritten(log, pi, [3.1, -2.3, 1.3], [-0.2, -0.2, -0.2], Vector([0.01, 1.03, 2.41])).Err?
  {
    var x, mean, sigma := Vector([3.1, -2.3, 1.3]), Scalar(-0.2), Vector([0.01, 1.03, 2.41]);
    assert Shapes(x, mean, sigma) && SigmaPositive(sigma);
    VectorSigmaOracleRaises(log, pi, x, mean, sigma);
  }
}
