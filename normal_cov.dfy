/** `NormalAdjLogPDFNode` cases 6 and 7 (vsm, vvm): a vector of observations,
    a scalar or vector mean and a covariance matrix. The node factors sigma
    with Eigen's Cholesky decomposition (`LLT`), which is a parameter here: a
    `Factor` says whether the decomposition succeeded, the determinant of its
    lower factor `L` and the inverse of sigma it solves for. */
module NormalCov {
  import opened Numeric
  import opened StatArgs
  import opened Dense
  import NormalRef

  /** What `llt_.compute(sigma)` yields: success (`info() == Success`), the
      determinant of `L`, and `solve(Identity)`. */
  datatype Factor = Factor(ok: bool, detL: real, inv: Matrix)

  /** A successful factor of an `n x n` sigma solves for a symmetric `n x n`
      inverse. */
  predicate Fits(f: Factor, n: nat)
  {
    f.ok ==> Square(f.inv, n) && Symmetric(f.inv, n)
  }

  /** The operand shapes the node asserts: `n` observations, a scalar mean or
      one per observation, and an `n x n` sigma. */
  predicate CovShapes(x: Arg, mean: Arg, sigma: Matrix)
  {
    x.Vector? && Conforms(mean, |x.xs|) && Square(sigma, |x.xs|)
  }

  /** `x - mean`, a scalar mean broadcast. */
  function Deviation(x: Arg, mean: Arg): (d: seq<real>)
    requires x.Vector? && Conforms(mean, |x.xs|)
    ensures |d| == |x.xs|
    ensures forall i :: 0 <= i < |d| ==> d[i] == x.xs[i] - At(mean, i)
  {
    seq(|x.xs|, i requires 0 <= i < |x.xs| => x.xs[i] - At(mean, i))
  }

  /** The adjusted log-density: `-inf` when the factorisation fails, else
      `-(x - mean)^T sigma^-1 (x - mean) / 2 - log(det L)`; `det L` is the
      square root of `det sigma`, so the second term is half the log
      determinant of sigma. */
  function CovLogDensity(log: real -> real, x: Arg, mean: Arg, f: Factor): (r: Ext)
    requires x.Vector? && Conforms(mean, |x.xs|) && Fits(f, |x.xs|)
    ensures r == NegInf <==> !f.ok
    ensures r.Fin? <==> f.ok
  {
    if f.ok then Fin(-0.5 * Quad(f.inv, Deviation(x, mean)) - log(f.detL)) else NegInf
  }

  /** `z = sigma^-1 (x - mean)`, the cache `z_` of forward evaluation. */
  function Precision(x: Arg, mean: Arg, inv: Matrix): (z: seq<real>)
    requires x.Vector? && Conforms(mean, |x.xs|) && Square(inv, |x.xs|)
    ensures |z| == |x.xs|
  {
    MatVec(inv, Deviation(x, mean))
  }

  /** The gradient with respect to `x`, per unit seed: `-z`. */
  function CovXGrad(x: Arg, mean: Arg, inv: Matrix): (g: Arg)
    requires x.Vector? && Conforms(mean, |x.xs|) && Square(inv, |x.xs|)
    ensures SameShape(g, x)
  {
    Vector(Neg(Precision(x, mean, inv)))
  }

  /** The gradient with respect to the mean: `z`, summed for a scalar mean. */
  function CovMeanGrad(x: Arg, mean: Arg, inv: Matrix): (g: Arg)
    requires x.Vector? && Conforms(mean, |x.xs|) && Square(inv, |x.xs|)
    ensures SameShape(g, mean)
  {
    var z := Precision(x, mean, inv);
    if mean.Scalar? then Scalar(Sum(z)) else Vector(z)
  }

  /** The gradient with respect to sigma: `-(sigma^-1 - z z^T) / 2`. */
  function CovSigmaGrad(x: Arg, mean: Arg, inv: Matrix): (g: Matrix)
    requires x.Vector? && Conforms(mean, |x.xs|) && Square(inv, |x.xs|)
    ensures Square(g, |x.xs|)
  {
    ScaledDiff(-0.5, inv, Outer(Precision(x, mean, inv)), |x.xs|)
  }

  // The gradients against the density.

  /** Moving the observations by `v` changes the density by `v . dx` plus
      the form of `v` itself, `-v^T sigma^-1 v / 2`: the linear part of the
      change is the `x` gradient. */
  lemma CovXSlope(log: real -> real, x: Arg, mean: Arg, f: Factor, v: seq<real>)
    requires x.Vector? && Conforms(mean, |x.xs|) && Fits(f, |x.xs|) && f.ok && |v| == |x.xs|
    ensures CovLogDensity(log, Vector(AddScaled(x.xs, 1.0, v)), mean, f).r ==
            CovLogDensity(log, x, mean, f).r + Dot(v, CovXGrad(x, mean, f.inv).xs) - 0.5 * Quad(f.inv, v)
  {
    var d, z := Deviation(x, mean), Precision(x, mean, f.inv);
    XStep(x, mean, v);
    QuadExpand(f.inv, d, v);
    DotNegRight(v, z);
  }

  /** Moving the observations by `v` moves `x - mean` by `v`. */
  lemma XStep(x: Arg, mean: Arg, v: seq<real>)
    requires x.Vector? && Conforms(mean, |x.xs|) && |v| == |x.xs|
    ensures Deviation(Vector(AddScaled(x.xs, 1.0, v)), mean) == AddScaled(Deviation(x, mean), 1.0, v)
  {
    var l, r := Deviation(Vector(AddScaled(x.xs, 1.0, v)), mean), AddScaled(Deviation(x, mean), 1.0, v);
    forall i | 0 <= i < |v|
      ensures l[i] == r[i]
    {
    }
    assert l == r;
  }

  /** Moving the mean by `dm` (a scalar mean moves every observation's mean)
      changes the density by `dm . dmean` plus the form of the broadcast
      step: the linear part of the change is the mean gradient. */
  lemma CovMeanSlope(log: real -> real, x: Arg, mean: Arg, f: Factor, dm: Arg)
    requires x.Vector? && Conforms(mean, |x.xs|) && Fits(f, |x.xs|) && f.ok && SameShape(dm, mean)
    ensures Conforms(AddArg(mean, dm), |x.xs|) && Conforms(dm, |x.xs|)
    ensures CovLogDensity(log, x, AddArg(mean, dm), f).r ==
            CovLogDensity(log, x, mean, f).r + Dot(Flat(dm), Flat(CovMeanGrad(x, mean, f.inv)))
            - 0.5 * Quad(f.inv, Broadcast(dm, |x.xs|))
  {
    var n := |x.xs|;
    var d, z, step := Deviation(x, mean), Precision(x, mean, f.inv), Broadcast(dm, n);
    MeanStep(x, mean, dm);
    QuadExpand(f.inv, d, Neg(step));
    DotNeg(step, z);
    QuadNeg(f.inv, step);
    BroadcastDot(mean, dm, z);
  }

  /** Moving the mean by `dm` moves `x - mean` by minus the broadcast step. */
  lemma MeanStep(x: Arg, mean: Arg, dm: Arg)
    requires x.Vector? && Conforms(mean, |x.xs|) && SameShape(dm, mean)
    ensures Conforms(AddArg(mean, dm), |x.xs|) && Conforms(dm, |x.xs|)
    ensures Deviation(x, AddArg(mean, dm)) == AddScaled(Deviation(x, mean), 1.0, Neg(Broadcast(dm, |x.xs|)))
  {
    var n := |x.xs|;
    var l, r := Deviation(x, AddArg(mean, dm)), AddScaled(Deviation(x, mean), 1.0, Neg(Broadcast(dm, n)));
    forall i | 0 <= i < n
      ensures l[i] == r[i]
    {
      assert At(AddArg(mean, dm), i) == At(mean, i) + At(dm, i);
    }
    assert l == r;
  }

  /** The broadcast step against `z` is the step against `z` collected as
      the mean's gradient collects it. */
  lemma BroadcastDot(mean: Arg, dm: Arg, z: seq<real>)
    requires SameShape(dm, mean) && Conforms(mean, |z|)
    ensures Conforms(dm, |z|)
    ensures Dot(Broadcast(dm, |z|), z) ==
            Dot(Flat(dm), Flat(if mean.Scalar? then Scalar(Sum(z)) else Vector(z)))
  {
    if dm.Scalar? {
      ScalarStepDot(dm.v, z);
    } else {
      VectorStepDot(dm.xs, z);
    }
  }

  /** A scalar step `t` broadcast against `z` is `t` times the sum of `z`,
      which is `t` against the collected gradient `[sum(z)]`. */
  lemma ScalarStepDot(t: real, z: seq<real>)
    ensures Dot(Broadcast(Scalar(t), |z|), z) == Dot([t], [Sum(z)])
  {
    ScalarStepSum(t, z);
    SingleSum(t, z);
  }

  lemma ScalarStepSum(t: real, z: seq<real>)
    ensures Dot(Broadcast(Scalar(t), |z|), z) == t * Sum(z)
  {
    ScalarBroadcast(t, |z|);
    DotConsts(t, z);
  }

  lemma SingleSum(t: real, z: seq<real>)
    ensures Dot([t], [Sum(z)]) == t * Sum(z)
  {
    DotSingle(t, Sum(z));
  }

  lemma ScalarBroadcast(t: real, n: nat)
    ensures Broadcast(Scalar(t), n) == Consts(n, t)
  {
  }

  lemma VectorStepDot(v: seq<real>, z: seq<real>)
    requires |v| == |z|
    ensures Dot(Broadcast(Vector(v), |z|), z) == Dot(v, z)
  {
    assert Broadcast(Vector(v), |z|) == v;
  }

  lemma DotSingle(a: real, b: real)
    ensures Dot([a], [b]) == a * b
  {
    assert [a][1..] == [] && [b][1..] == [];
  }

  /** The adjoints of the observations and of the mean cancel: the density
      depends on `x - mean` only. */
  lemma CovGradsCancel(x: Arg, mean: Arg, inv: Matrix)
    requires x.Vector? && Conforms(mean, |x.xs|) && Square(inv, |x.xs|)
    ensures Sum(Flat(CovXGrad(x, mean, inv))) + Sum(Flat(CovMeanGrad(x, mean, inv))) == 0.0
  {
    var z := Precision(x, mean, inv);
    SumNeg(z);
    if mean.Scalar? {
      assert Sum([Sum(z)]) == Sum(z) + Sum([]);
    }
  }

  /** Shifting the observations and the mean together changes neither the
      density nor the gradients. */
  lemma CovShiftInvariant(log: real -> real, x: Arg, mean: Arg, f: Factor, c: real)
    requires x.Vector? && Conforms(mean, |x.xs|) && Fits(f, |x.xs|)
    ensures Shift(x, c).Vector? && Conforms(Shift(mean, c), |Shift(x, c).xs|)
    ensures CovLogDensity(log, Shift(x, c), Shift(mean, c), f) == CovLogDensity(log, x, mean, f)
    ensures f.ok ==>
              CovXGrad(Shift(x, c), Shift(mean, c), f.inv) == CovXGrad(x, mean, f.inv) &&
              CovMeanGrad(Shift(x, c), Shift(mean, c), f.inv) == CovMeanGrad(x, mean, f.inv) &&
              CovSigmaGrad(Shift(x, c), Shift(mean, c), f.inv) == CovSigmaGrad(x, mean, f.inv)
  {
    var x', mean' := Shift(x, c), Shift(mean, c);
    forall i | 0 <= i < |x.xs|
      ensures Deviation(x', mean')[i] == Deviation(x, mean)[i]
    {
      assert At(x', i) == At(x, i) + c && At(mean', i) == At(mean, i) + c;
    }
    assert Deviation(x', mean') == Deviation(x, mean);
  }

  /** The sigma gradient is symmetric, like sigma. */
  lemma CovSigmaGradSymmetric(x: Arg, mean: Arg, inv: Matrix)
    requires x.Vector? && Conforms(mean, |x.xs|) && Square(inv, |x.xs|) && Symmetric(inv, |x.xs|)
    ensures Symmetric(CovSigmaGrad(x, mean, inv), |x.xs|)
  {
    var z := Precision(x, mean, inv);
    OuterSymmetric(z);
    ScaledDiffSymmetric(-0.5, inv, Outer(z), |x.xs|);
  }

  /** `m` is positive definite: `v^T m v > 0` for every non-zero `v`. */
  ghost predicate PositiveDefinite(m: Matrix, n: nat)
    requires Square(m, n)
  {
    forall v: seq<real> :: |v| == n && v != Consts(n, 0.0) ==> Quad(m, v) > 0.0
  }

  /** The form of the zero vector is zero. */
  lemma QuadZero(m: Matrix, n: nat)
    requires Square(m, n)
    ensures Quad(m, Consts(n, 0.0)) == 0.0
  {
    DotConsts(0.0, MatVec(m, Consts(n, 0.0)));
  }

  /** With a positive definite inverse the density peaks where every
      observation equals its mean: it never exceeds `-log(det L)` and reaches
      it exactly there. */
  lemma CovPeakAtMean(log: real -> real, x: Arg, mean: Arg, f: Factor)
    requires x.Vector? && Conforms(mean, |x.xs|) && Fits(f, |x.xs|) && f.ok
    requires PositiveDefinite(f.inv, |x.xs|)
    ensures CovLogDensity(log, x, mean, f).r <= -log(f.detL)
    ensures CovLogDensity(log, x, mean, f).r == -log(f.detL) <==>
            forall i :: 0 <= i < |x.xs| ==> x.xs[i] == At(mean, i)
  {
    var n, d := |x.xs|, Deviation(x, mean);
    QuadZero(f.inv, n);
    if d != Consts(n, 0.0) {
      assert Quad(f.inv, d) > 0.0;
      var i :| 0 <= i < n && d[i] != 0.0;
      assert x.xs[i] != At(mean, i);
    } else {
      forall i | 0 <= i < n
        ensures x.xs[i] == At(mean, i)
      {
        assert d[i] == 0.0;
      }
    }
  }

  // Agreement with the reference gradients.

  /** `vvm_beval` agrees with the node's gradients given the same inverse:
      `dx`, then `dmu`, then `dsigma` flattened. */
  lemma VvmAgrees(x: Arg, mean: Arg, inv: Matrix)
    requires x.Vector? && mean.Vector? && |mean.xs| == |x.xs| && Square(inv, |x.xs|)
    ensures NormalRef.VvmBeval(x.xs, mean.xs, inv) ==
            CovXGrad(x, mean, inv).xs + CovMeanGrad(x, mean, inv).xs + Flatten(CovSigmaGrad(x, mean, inv))
  {
    var z := Precision(x, mean, inv);
    assert PairDiffs(x.xs, mean.xs) == Deviation(x, mean);
    assert Neg(Neg(z)) == z;
    OuterOfNeg(z);
  }

  /** `vsm_beval` agrees with the node's gradients given the same inverse. */
  lemma VsmAgrees(x: Arg, mean: Arg, inv: Matrix)
    requires x.Vector? && mean.Scalar? && Square(inv, |x.xs|)
    ensures NormalRef.VsmBeval(x.xs, mean.v, inv) ==
            CovXGrad(x, mean, inv).xs + Flat(CovMeanGrad(x, mean, inv)) + Flatten(CovSigmaGrad(x, mean, inv))
  {
    var z := Precision(x, mean, inv);
    assert Diffs(x.xs, mean.v) == Deviation(x, mean);
    SumNeg(z);
    OuterOfNeg(z);
  }

  /** The node of cases vsm and vvm. */
  class CovNode {
    const log: real -> real
    /** Eigen's Cholesky decomposition of a matrix. */
    const llt: Matrix -> Factor
    /** Which operands are constants, whose adjoints nobody reads. */
    const xConst: bool
    const meanConst: bool
    const sigmaConst: bool
    var x: Arg
    var mean: Arg
    var sigma: Matrix
    var xAdj: Arg
    var meanAdj: Arg
    var sigmaAdj: Matrix
    var value: Ext
    /** `log(det L)`. */
    var logDet: real
    /** The factorisation succeeded. */
    var isPosDef: bool
    var inv: Matrix
    /** `sigma^-1 (x - mean)`. */
    var z: seq<real>

    /** The cache of `update_cache` describes sigma. */
    ghost predicate Cached()
      reads this
    {
      isPosDef == llt(sigma).ok && (isPosDef ==> logDet == log(llt(sigma).detL) && inv == llt(sigma).inv)
    }

    /** The shapes, and the cache of a constant sigma, filled at
        construction. */
    ghost predicate Valid()
      reads this
    {
      CovShapes(x, mean, sigma) && Fits(llt(sigma), |x.xs|) &&
      SameShape(xAdj, x) && SameShape(meanAdj, mean) && Square(sigmaAdj, |x.xs|) &&
      (sigmaConst ==> Cached())
    }

    /** The caches forward evaluation fills describe the operands. */
    ghost predicate Evaluated()
      reads this
      requires Valid()
    {
      Cached() && (isPosDef ==> z == Precision(x, mean, inv))
    }

    constructor (log: real -> real, llt: Matrix -> Factor, x: Arg, mean: Arg, sigma: Matrix,
                 xConst: bool, meanConst: bool, sigmaConst: bool)
      requires CovShapes(x, mean, sigma) && Fits(llt(sigma), |x.xs|)
      ensures Valid()
      ensures this.log == log && this.llt == llt
      ensures this.x == x && this.mean == mean && this.sigma == sigma
      ensures this.xConst == xConst && this.meanConst == meanConst && this.sigmaConst == sigmaConst
      ensures xAdj == ZeroLike(x) && meanAdj == ZeroLike(mean) && sigmaAdj == ZeroMat(|x.xs|)
    {
      this.log, this.llt := log, llt;
      this.x, this.mean, this.sigma := x, mean, sigma;
      this.xConst, this.meanConst, this.sigmaConst := xConst, meanConst, sigmaConst;
      xAdj, meanAdj, sigmaAdj := ZeroLike(x), ZeroLike(mean), ZeroMat(|x.xs|);
      value, logDet, isPosDef, inv, z := Fin(0.0), 0.0, false, ZeroMat(|x.xs|), Consts(|x.xs|, 0.0);
      new;
      if sigmaConst {
        UpdateCache();
      }
    }

    /** Factors sigma; on success caches `log(det L)` and the inverse, on
        failure keeps the previous ones. */
    method UpdateCache()
      modifies this
      ensures Cached()
      ensures x == old(x) && mean == old(mean) && sigma == old(sigma) && value == old(value) && z == old(z)
      ensures xAdj == old(xAdj) && meanAdj == old(meanAdj) && sigmaAdj == old(sigmaAdj)
      ensures !isPosDef ==> logDet == old(logDet) && inv == old(inv)
    {
      var f := llt(sigma);
      isPosDef := f.ok;
      if isPosDef {
        logDet := log(f.detL);
        inv := f.inv;
      }
    }

    /** Forward evaluation: a varying sigma is factored anew; `-inf` when the
        factorisation fails, else `-(x - mean)^T z / 2 - log(det L)` with `z`
        cached for backward evaluation. */
    method Feval() returns (v: Ext)
      requires Valid()
      modifies this
      ensures Valid() && Evaluated()
      ensures v == value == CovLogDensity(log, x, mean, llt(sigma))
      ensures x == old(x) && mean == old(mean) && sigma == old(sigma)
      ensures xAdj == old(xAdj) && meanAdj == old(meanAdj) && sigmaAdj == old(sigmaAdj)
    {
      if !sigmaConst {
        UpdateCache();
      }
      if !isPosDef {
        v := NegInf;
        value := v;
        return;
      }
      var d := Deviation(x, mean);
      z := MatVec(inv, d);
      var sqTerm := Dot(d, z);
      v := Fin(-0.5 * sqTerm - logDet);
      value := v;
    }

    /** Backward evaluation after forward evaluation: nothing for a zero
        seed or a failed factorisation; otherwise sigma, then the mean, then
        `x` receive the seed times their gradients, unless constant. */
    method Beval(seed: real)
      requires Valid() && Evaluated()
      modifies this
      ensures Valid() && Evaluated()
      ensures x == old(x) && mean == old(mean) && sigma == old(sigma) && value == old(value)
      ensures xAdj == if xConst || seed == 0.0 || !llt(sigma).ok then old(xAdj)
                      else AddArg(old(xAdj), ScaleArg(seed, CovXGrad(x, mean, llt(sigma).inv)))
      ensures meanAdj == if meanConst || seed == 0.0 || !llt(sigma).ok then old(meanAdj)
                         else AddArg(old(meanAdj), ScaleArg(seed, CovMeanGrad(x, mean, llt(sigma).inv)))
      ensures sigmaAdj == if sigmaConst || seed == 0.0 || !llt(sigma).ok then old(sigmaAdj)
                          else AddMat(old(sigmaAdj), ScaleMat(seed, CovSigmaGrad(x, mean, llt(sigma).inv), |x.xs|), |x.xs|)
    {
      if seed == 0.0 || !isPosDef {
        return;
      }
      var n := |x.xs|;
      if !sigmaConst {
        var g := CovSigmaSeed(seed, x, mean, inv, z);
        sigmaAdj := AddMat(sigmaAdj, g, n);
      }
      if !meanConst {
        var g := CovMeanSeed(seed, x, mean, inv, z);
        meanAdj := AddArg(meanAdj, g);
      }
      if !xConst {
        var g := CovXSeed(seed, x, mean, inv, z);
        xAdj := AddArg(xAdj, g);
      }
    }
  }

  /** The sigma seed from the cached `z`: `(-seed/2) (sigma^-1 - z z^T)`. */
  method CovSigmaSeed(seed: real, x: Arg, mean: Arg, inv: Matrix, z: seq<real>) returns (g: Matrix)
    requires x.Vector? && Conforms(mean, |x.xs|) && Square(inv, |x.xs|) && z == Precision(x, mean, inv)
    ensures g == ScaleMat(seed, CovSigmaGrad(x, mean, inv), |x.xs|)
  {
    ScaleScaledDiff(seed, -0.5, inv, Outer(z), |x.xs|);
    g := ScaledDiff(-0.5 * seed, inv, Outer(z), |x.xs|);
  }

  /** The mean seed from the cached `z`: `seed * sum(z)`, or `seed z`. */
  method CovMeanSeed(seed: real, x: Arg, mean: Arg, inv: Matrix, z: seq<real>) returns (g: Arg)
    requires x.Vector? && Conforms(mean, |x.xs|) && Square(inv, |x.xs|) && z == Precision(x, mean, inv)
    ensures g == ScaleArg(seed, CovMeanGrad(x, mean, inv))
  {
    g := if mean.Scalar? then Scalar(seed * Sum(z)) else Vector(Scale(seed, z));
  }

  /** The `x` seed from the cached `z`: `(-seed) z`. */
  method CovXSeed(seed: real, x: Arg, mean: Arg, inv: Matrix, z: seq<real>) returns (g: Arg)
    requires x.Vector? && Conforms(mean, |x.xs|) && Square(inv, |x.xs|) && z == Precision(x, mean, inv)
    ensures g == ScaleArg(seed, CovXGrad(x, mean, inv))
  {
    var adj := Scale(-seed, z);
    forall i | 0 <= i < |z|
      ensures adj[i] == Scale(seed, Neg(z))[i]
    {
    }
    assert adj == Scale(seed, Neg(z));
    g := Vector(adj);
  }
}
