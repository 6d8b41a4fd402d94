/** `UniformAdjLogPDFNode`: the log-density of the uniform distribution on
    the open interval `(min, max)`, observation by observation, with no
    constant omitted. Cases by operand shape: sss, vss, vsv, vvs, vvv (`x`,
    then `min`, then `max`). Only `min` and `max` receive adjoints. */
module Uniform {
  import opened Numeric
  import opened StatArgs
  import UniformRef

  /** The shapes the node is specialised for. `minCoeff`/`maxCoeff` of the
      observations, which Eigen asserts non-empty, are taken whenever a bound
      is a scalar. */
  predicate Shapes(x: Arg, min: Arg, max: Arg)
  {
    if x.Scalar? then min.Scalar? && max.Scalar?
    else Conforms(min, |x.xs|) && Conforms(max, |x.xs|) &&
         ((min.Scalar? || max.Scalar?) ==> |x.xs| > 0)
  }

  /** Every observation lies strictly above its lower bound. */
  predicate AboveAll(x: Arg, min: Arg)
    requires Conforms(min, Size(x)) && (x.Scalar? ==> min.Scalar?)
  {
    forall i :: 0 <= i < Size(x) ==> At(min, i) < At(x, i)
  }

  /** Every observation lies strictly below its upper bound. */
  predicate BelowAll(x: Arg, max: Arg)
    requires Conforms(max, Size(x)) && (x.Scalar? ==> max.Scalar?)
  {
    forall i :: 0 <= i < Size(x) ==> At(x, i) < At(max, i)
  }

  /** Every observation lies in the open support. */
  predicate InSupport(x: Arg, min: Arg, max: Arg)
    requires Shapes(x, min, max)
  {
    AboveAll(x, min) && BelowAll(x, max)
  }

  /** `max_i - min_i`. */
  function Width(x: Arg, min: Arg, max: Arg, i: nat): real
    requires Shapes(x, min, max) && i < Size(x)
  {
    At(max, i) - At(min, i)
  }

  lemma WidthPositive(x: Arg, min: Arg, max: Arg, i: nat)
    requires Shapes(x, min, max) && InSupport(x, min, max) && i < Size(x)
    ensures Width(x, min, max, i) > 0.0
  {
    assert At(min, i) < At(x, i) < At(max, i);
  }

  /** No observation's bounds coincide, so every division by a width that
      backward evaluation makes is defined. */
  predicate WidthsNonZero(x: Arg, min: Arg, max: Arg)
    requires Shapes(x, min, max)
  {
    forall i :: 0 <= i < Size(x) ==> Width(x, min, max, i) != 0.0
  }

  lemma SupportWidthsNonZero(x: Arg, min: Arg, max: Arg)
    requires Shapes(x, min, max) && InSupport(x, min, max)
    ensures WidthsNonZero(x, min, max)
  {
    forall i | 0 <= i < Size(x)
      ensures Width(x, min, max, i) != 0.0
    {
      WidthPositive(x, min, max, i);
    }
  }

  /** `log(max_i - min_i)` for every observation. */
  function LogWidths(log: real -> real, x: Arg, min: Arg, max: Arg): (w: seq<real>)
    requires Shapes(x, min, max)
    ensures |w| == Size(x)
  {
    seq(Size(x), i requires 0 <= i < Size(x) => log(Width(x, min, max, i)))
  }

  /** The log-density: minus the log-widths summed over the observations
      inside the support, `-inf` as soon as one observation is outside. */
  function LogDensity(log: real -> real, x: Arg, min: Arg, max: Arg): (r: Ext)
    requires Shapes(x, min, max)
    ensures r == NegInf <==> !InSupport(x, min, max)
    ensures r.Fin? ==> r.r == -Sum(LogWidths(log, x, min, max))
  {
    if InSupport(x, min, max) then Fin(-Sum(LogWidths(log, x, min, max))) else NegInf
  }

  /** `1/(max_i - min_i)` for every observation. */
  function InverseWidths(x: Arg, min: Arg, max: Arg): (w: seq<real>)
    requires Shapes(x, min, max) && WidthsNonZero(x, min, max)
    ensures |w| == Size(x)
  {
    seq(Size(x), i requires 0 <= i < Size(x) => 1.0 / Width(x, min, max, i))
  }

  /** The seed backward evaluation passes to `min`. */
  function MinSeed(seed: real, x: Arg, min: Arg, max: Arg): (g: Arg)
    requires Shapes(x, min, max) && WidthsNonZero(x, min, max)
    ensures SameShape(g, min)
  {
    if min.Scalar? && max.Scalar? then
      assert Width(x, min, max, 0) == max.v - min.v;
      if x.Scalar? then Scalar(seed / (max.v - min.v))
      else Scalar(seed * (|x.xs| as real) / (max.v - min.v))
    else if min.Scalar? then Scalar(seed * Sum(InverseWidths(x, min, max)))
    else Vector(seq(|x.xs|, i requires 0 <= i < |x.xs| => seed / Width(x, min, max, i)))
  }

  /** The seed backward evaluation passes to `max`. */
  function MaxSeed(seed: real, x: Arg, min: Arg, max: Arg): (g: Arg)
    requires Shapes(x, min, max) && WidthsNonZero(x, min, max)
    ensures SameShape(g, max)
  {
    if min.Scalar? && max.Scalar? then
      assert Width(x, min, max, 0) == max.v - min.v;
      if x.Scalar? then Scalar(-(seed / (max.v - min.v)))
      else Scalar(-(seed * (|x.xs| as real) / (max.v - min.v)))
    else if max.Scalar? then Scalar((-seed) * Sum(InverseWidths(x, min, max)))
    else Vector(seq(|x.xs|, i requires 0 <= i < |x.xs| => (-seed) / Width(x, min, max, i)))
  }

  /** The adjoints backward evaluation with seed 1 adds, listed as the
      reference oracles list them; zero outside the support. */
  function Gradient(x: Arg, min: Arg, max: Arg): (g: seq<real>)
    requires Shapes(x, min, max)
    ensures |g| == Size(min) + Size(max)
  {
    if InSupport(x, min, max) then
      SupportWidthsNonZero(x, min, max);
      Flat(MinSeed(1.0, x, min, max)) + Flat(MaxSeed(1.0, x, min, max))
    else Consts(Size(min) + Size(max), 0.0)
  }

  lemma QuotientLinear(s: real, a: real, d: real)
    requires d != 0.0
    ensures s * a / d == s * (1.0 * a / d)
    ensures s / d == s * (1.0 / d)
    ensures (-s) / d == s * ((-1.0) / d)
  {
  }

  lemma ScalarBoundsLinear(seed: real, x: Arg, min: Arg, max: Arg)
    requires Shapes(x, min, max) && InSupport(x, min, max) && min.Scalar? && max.Scalar?
    ensures MinSeed(seed, x, min, max) == ScaleArg(seed, MinSeed(1.0, x, min, max))
    ensures MaxSeed(seed, x, min, max) == ScaleArg(seed, MaxSeed(1.0, x, min, max))
  {
    WidthPositive(x, min, max, 0);
    QuotientLinear(seed, Size(x) as real, max.v - min.v);
  }

  lemma ScalarBoundLinear(seed: real, x: Arg, min: Arg, max: Arg)
    requires Shapes(x, min, max) && InSupport(x, min, max) && (min.Scalar? <==> max.Vector?)
    ensures min.Scalar? ==> MinSeed(seed, x, min, max) == ScaleArg(seed, MinSeed(1.0, x, min, max))
    ensures max.Scalar? ==> MaxSeed(seed, x, min, max) == ScaleArg(seed, MaxSeed(1.0, x, min, max))
  {
  }

  lemma VectorMinLinear(seed: real, x: Arg, min: Arg, max: Arg)
    requires Shapes(x, min, max) && InSupport(x, min, max) && min.Vector?
    ensures MinSeed(seed, x, min, max) == ScaleArg(seed, MinSeed(1.0, x, min, max))
  {
    SupportWidthsNonZero(x, min, max);
    var a, b := MinSeed(seed, x, min, max), MinSeed(1.0, x, min, max);
    forall i | 0 <= i < |a.xs|
      ensures a.xs[i] == seed * b.xs[i]
    {
      var w := Width(x, min, max, i);
      WidthPositive(x, min, max, i);
      assert a.xs[i] == seed / w && b.xs[i] == 1.0 / w;
      QuotientLinear(seed, 1.0, w);
    }
    ArgExt(a, ScaleArg(seed, b));
  }

  lemma VectorMaxLinear(seed: real, x: Arg, min: Arg, max: Arg)
    requires Shapes(x, min, max) && InSupport(x, min, max) && max.Vector?
    ensures MaxSeed(seed, x, min, max) == ScaleArg(seed, MaxSeed(1.0, x, min, max))
  {
    SupportWidthsNonZero(x, min, max);
    var a, b := MaxSeed(seed, x, min, max), MaxSeed(1.0, x, min, max);
    forall i | 0 <= i < |a.xs|
      ensures a.xs[i] == seed * b.xs[i]
    {
      var w := Width(x, min, max, i);
      WidthPositive(x, min, max, i);
      assert a.xs[i] == (-seed) / w && b.xs[i] == (-1.0) / w;
      QuotientLinear(seed, 1.0, w);
    }
    ArgExt(a, ScaleArg(seed, b));
  }

  /** The seeds are the seed times the gradient: backward evaluation is
      linear in its seed. */
  lemma SeedsAreLinear(seed: real, x: Arg, min: Arg, max: Arg)
    requires Shapes(x, min, max) && InSupport(x, min, max)
    ensures MinSeed(seed, x, min, max) == ScaleArg(seed, MinSeed(1.0, x, min, max))
    ensures MaxSeed(seed, x, min, max) == ScaleArg(seed, MaxSeed(1.0, x, min, max))
  {
    if min.Scalar? && max.Scalar? {
      ScalarBoundsLinear(seed, x, min, max);
    } else {
      if min.Vector? {
        VectorMinLinear(seed, x, min, max);
      }
      if max.Vector? {
        VectorMaxLinear(seed, x, min, max);
      }
      if min.Scalar? || max.Scalar? {
        ScalarBoundLinear(seed, x, min, max);
      }
    }
  }

  /** sss: the node's gradient is the oracle's, inside and outside the
      support; the oracle fails only for equal bounds. */
  lemma SssAgreesWithOracle(x: real, min: real, max: real)
    requires max != min
    ensures UniformRef.SssBeval(x, min, max) == Ok(Gradient(Scalar(x), Scalar(min), Scalar(max)))
  {
    var X, lo, hi := Scalar(x), Scalar(min), Scalar(max);
    assert InSupport(X, lo, hi) <==> min < x < max by {
      assert At(X, 0) == x && At(lo, 0) == min && At(hi, 0) == max;
    }
    var r := UniformRef.SssBeval(x, min, max);
    var g := Gradient(X, lo, hi);
    if min < x < max {
      assert g == [1.0 / (max - min), -(1.0 / (max - min))];
    } else {
      assert g == [0.0, 0.0];
    }
    assert r.value == g;
  }

  /** vss: the node's gradient is that of the corrected oracle, which tests
      every observation. */
  lemma VssAgreesWithOracle(xs: seq<real>, min: real, max: real)
    requires |xs| > 0 && max != min
    ensures UniformRef.VssBeval(xs, min, max) == Ok(Gradient(Vector(xs), Scalar(min), Scalar(max)))
  {
    var X, lo, hi := Vector(xs), Scalar(min), Scalar(max);
    assert InSupport(X, lo, hi) <==> UniformRef.AllInSupport(xs, min, max) by {
      assert forall i :: 0 <= i < |xs| ==> At(X, i) == xs[i];
    }
    var r := UniformRef.VssBeval(xs, min, max);
    var g := Gradient(X, lo, hi);
    if InSupport(X, lo, hi) {
      var n, v := |xs| as real, 1.0 / (max - min);
      QuotientLinear(n, 1.0, max - min);
      assert 1.0 * n / (max - min) == n * v;
      assert g == [n * v, -(n * v)];
      assert r.Ok?;
      assert r.value[0] == n * v;
      assert r.value == [n * v, -(n * v)];
    } else {
      assert g == [0.0, 0.0];
    }
    assert r.value == g;
  }

  lemma NegatedQuotient(d: real)
    requires d != 0.0
    ensures -((-1.0) / d) == 1.0 / d
    ensures (-1.0) * (1.0 / d) == -(1.0 / d)
  {
  }

  /** vsv: inside the support the node's gradient is the oracle's. */
  lemma VsvAgreesWithOracle(xs: seq<real>, min: real, maxs: seq<real>)
    requires |xs| > 0 && |maxs| == |xs|
    requires InSupport(Vector(xs), Scalar(min), Vector(maxs))
    ensures UniformRef.VsvBeval(min, maxs) == Ok(Gradient(Vector(xs), Scalar(min), Vector(maxs)))
  {
    var X, lo, hi := Vector(xs), Scalar(min), Vector(maxs);
    var n := |xs|;
    forall i | 0 <= i < n
      ensures maxs[i] - min > 0.0
    {
      WidthPositive(X, lo, hi, i);
    }
    var dM := seq(n, i requires 0 <= i < n => -1.0 / (maxs[i] - min));
    var w := InverseWidths(X, lo, hi);
    forall i | 0 <= i < n
      ensures Neg(dM)[i] == w[i]
    {
      NegatedQuotient(maxs[i] - min);
    }
    SumPointwiseEq(Neg(dM), w);
    var r := UniformRef.VsvBeval(min, maxs);
    assert r == Ok([Sum(Neg(dM))] + dM);
    var up := MaxSeed(1.0, X, lo, hi);
    assert up.xs == dM;
    assert Flat(MinSeed(1.0, X, lo, hi)) == [Sum(Neg(dM))];
  }

  /** vvs: inside the support the node's gradient is the oracle's. */
  lemma VvsAgreesWithOracle(xs: seq<real>, mins: seq<real>, max: real)
    requires |xs| > 0 && |mins| == |xs|
    requires InSupport(Vector(xs), Vector(mins), Scalar(max))
    ensures UniformRef.VvsBeval(mins, max) == Ok(Gradient(Vector(xs), Vector(mins), Scalar(max)))
  {
    var X, lo, hi := Vector(xs), Vector(mins), Scalar(max);
    var n := |xs|;
    forall i | 0 <= i < n
      ensures max - mins[i] > 0.0
    {
      WidthPositive(X, lo, hi, i);
    }
    var dm := seq(n, i requires 0 <= i < n => 1.0 / (max - mins[i]));
    var w := InverseWidths(X, lo, hi);
    assert w == dm;
    SumNeg(dm);
    var r := UniformRef.VvsBeval(mins, max);
    assert r == Ok(dm + [Sum(Neg(dm))]);
    var down := MinSeed(1.0, X, lo, hi);
    assert down.xs == dm;
    assert Flat(MaxSeed(1.0, X, lo, hi)) == [Sum(Neg(dm))];
  }

  /** vvv: inside the support the node's gradient is the oracle's. */
  lemma VvvAgreesWithOracle(xs: seq<real>, mins: seq<real>, maxs: seq<real>)
    requires |mins| == |xs| && |maxs| == |xs|
    requires InSupport(Vector(xs), Vector(mins), Vector(maxs))
    ensures UniformRef.VvvBeval(mins, maxs) == Ok(Gradient(Vector(xs), Vector(mins), Vector(maxs)))
  {
    var X, lo, hi := Vector(xs), Vector(mins), Vector(maxs);
    var n := |xs|;
    forall i | 0 <= i < n
      ensures maxs[i] - mins[i] > 0.0
    {
      WidthPositive(X, lo, hi, i);
    }
    var dM := seq(n, i requires 0 <= i < n => -1.0 / (maxs[i] - mins[i]));
    var down := MinSeed(1.0, X, lo, hi);
    forall i | 0 <= i < n
      ensures down.xs[i] == Neg(dM)[i]
    {
      NegatedQuotient(maxs[i] - mins[i]);
    }
    assert down.xs == Neg(dM);
    var r := UniformRef.VvvBeval(mins, maxs);
    assert r == Ok(Neg(dM) + dM);
    var up := MaxSeed(1.0, X, lo, hi);
    assert up.xs == dM;
  }

  lemma ScalarLowerBound(x: Arg, lo: real)
    requires x.Vector? && |x.xs| > 0
    ensures AboveAll(x, Scalar(lo)) <==> lo < MinCoeff(x.xs)
  {
    MinCoeffBound(lo, x.xs);
    assert forall i :: 0 <= i < |x.xs| ==> At(x, i) == x.xs[i];
  }

  lemma ScalarUpperBound(x: Arg, hi: real)
    requires x.Vector? && |x.xs| > 0
    ensures BelowAll(x, Scalar(hi)) <==> MaxCoeff(x.xs) < hi
  {
    MaxCoeffBound(hi, x.xs);
    assert forall i :: 0 <= i < |x.xs| ==> At(x, i) == x.xs[i];
  }

  /** With scalar bounds every observation has the same log-width, so the
      log-width term is `n` times one of them. */
  lemma SharedBoundsLogWidths(log: real -> real, x: Arg, min: real, max: real)
    requires x.Vector? && |x.xs| > 0
    ensures -Sum(LogWidths(log, x, Scalar(min), Scalar(max))) == -(|x.xs| as real) * log(max - min)
  {
    var n := |x.xs|;
    var w := LogWidths(log, x, Scalar(min), Scalar(max));
    forall i | 0 <= i < n
      ensures w[i] == Consts(n, log(max - min))[i]
    {
      assert Width(x, Scalar(min), Scalar(max), i) == max - min;
    }
    assert w == Consts(n, log(max - min));
    SumOfConsts(n, log(max - min));
  }

  /** `within_range` of each specialisation, from its caches: the extreme
      observations against scalar bounds, and whether every observation is
      above (below) a vector bound. */
  predicate CachedInRange(x: Arg, min: Arg, max: Arg, xMin: real, xMax: real, below: bool, above: bool)
    requires Shapes(x, min, max)
  {
    if x.Scalar? then min.v < x.v && x.v < max.v
    else if min.Scalar? && max.Scalar? then min.v < xMin && xMax < max.v
    else if min.Scalar? then min.v < xMin && above
    else if max.Scalar? then below && xMax < max.v
    else below && above
  }

  /** The shape of case vvv, the only one without `update_x_cache`: its two
      flags are recomputed by every forward evaluation. */
  predicate AllVectors(x: Arg, min: Arg, max: Arg)
  {
    x.Vector? && min.Vector? && max.Vector?
  }

  /** The observation summaries of each specialisation, taken against the
      vector bound `minSeen` (`maxSeen`) that was current when they were
      computed; the vvv flags are taken against the current bounds. */
  predicate Summarised(x: Arg, min: Arg, max: Arg, xMin: real, xMax: real, below: bool, above: bool,
                       minSeen: Arg, maxSeen: Arg)
    requires Shapes(x, min, max) && SameShape(minSeen, min) && SameShape(maxSeen, max)
  {
    if x.Scalar? then true
    else if min.Scalar? && max.Scalar? then xMin == MinCoeff(x.xs) && xMax == MaxCoeff(x.xs)
    else if min.Scalar? then xMin == MinCoeff(x.xs) && above == BelowAll(x, maxSeen)
    else if max.Scalar? then xMax == MaxCoeff(x.xs) && below == AboveAll(x, minSeen)
    else below == AboveAll(x, min) && above == BelowAll(x, max)
  }

  /** What `within_range` tests once the summaries are taken: the support,
      except that cases vsv and vvs compare the observations with the vector
      bound the summaries saw. */
  predicate SeenInSupport(x: Arg, min: Arg, max: Arg, minSeen: Arg, maxSeen: Arg)
    requires Shapes(x, min, max) && SameShape(minSeen, min) && SameShape(maxSeen, max)
  {
    if x.Vector? && min.Scalar? && max.Vector? then AboveAll(x, min) && BelowAll(x, maxSeen)
    else if x.Vector? && min.Vector? && max.Scalar? then AboveAll(x, minSeen) && BelowAll(x, max)
    else InSupport(x, min, max)
  }

  /** Summaries taken against the current bounds make the range test the
      support. */
  lemma FreshSummariesAreSupport(x: Arg, min: Arg, max: Arg)
    requires Shapes(x, min, max)
    ensures SeenInSupport(x, min, max, min, max) <==> InSupport(x, min, max)
  {
  }

  /** `within_range`, read from summaries, is the range test they were taken
      for. */
  lemma CachedRange(x: Arg, min: Arg, max: Arg, xMin: real, xMax: real, below: bool, above: bool,
                    minSeen: Arg, maxSeen: Arg)
    requires Shapes(x, min, max) && SameShape(minSeen, min) && SameShape(maxSeen, max)
    requires Summarised(x, min, max, xMin, xMax, below, above, minSeen, maxSeen)
    ensures CachedInRange(x, min, max, xMin, xMax, below, above) <==> SeenInSupport(x, min, max, minSeen, maxSeen)
  {
    if x.Scalar? {
      assert At(x, 0) == x.v && At(min, 0) == min.v && At(max, 0) == max.v;
    } else if min.Scalar? && max.Scalar? {
      ScalarLowerBound(x, min.v);
      ScalarUpperBound(x, max.v);
    } else if min.Scalar? {
      ScalarLowerBound(x, min.v);
    } else if max.Scalar? {
      ScalarUpperBound(x, max.v);
    }
  }

  /** The observation summaries `update_x_cache` (and, in case vvv, forward
      evaluation) computes for the current specialisation against the current
      bounds; the others keep their previous values. */
  method RangeSummaries(x: Arg, min: Arg, max: Arg, xMin: real, xMax: real, below: bool, above: bool)
    returns (mn: real, mx: real, b: bool, a: bool)
    requires Shapes(x, min, max)
    ensures Summarised(x, min, max, mn, mx, b, a, min, max)
    ensures CachedInRange(x, min, max, mn, mx, b, a) <==> InSupport(x, min, max)
  {
    mn, mx, b, a := xMin, xMax, below, above;
    if x.Scalar? {
    } else if min.Scalar? && max.Scalar? {
      mn, mx := MinCoeff(x.xs), MaxCoeff(x.xs);
    } else if min.Scalar? {
      mn, a := MinCoeff(x.xs), BelowAll(x, max);
    } else if max.Scalar? {
      mx, b := MaxCoeff(x.xs), AboveAll(x, min);
    } else {
      b, a := AboveAll(x, min), BelowAll(x, max);
    }
    CachedRange(x, min, max, mn, mx, b, a, min, max);
  }

  /** The log-width term `update_log_diff_cache` computes: one log-width for
      scalar bounds (case vss multiplies it by `n`), their sum otherwise. */
  function LogDiffTerm(log: real -> real, x: Arg, min: Arg, max: Arg): (d: real)
    requires Shapes(x, min, max)
    ensures min.Vector? || max.Vector? || x.Scalar? ==> d == Sum(LogWidths(log, x, min, max))
  {
    if min.Scalar? && max.Scalar? then
      if x.Scalar? then
        assert Width(x, min, max, 0) == max.v - min.v;
        assert LogWidths(log, x, min, max) == [log(max.v - min.v)];
        assert Sum([log(max.v - min.v)]) == log(max.v - min.v) + Sum([]);
        log(max.v - min.v)
      else log(max.v - min.v)
    else Sum(LogWidths(log, x, min, max))
  }

  /** Inside the range test, the value forward evaluation forms from the
      log-width term is the cached log-density. */
  lemma CachedValue(log: real -> real, x: Arg, min: Arg, max: Arg, minSeen: Arg, maxSeen: Arg)
    requires Shapes(x, min, max) && SameShape(minSeen, min) && SameShape(maxSeen, max)
    requires SeenInSupport(x, min, max, minSeen, maxSeen)
    ensures x.Vector? && min.Scalar? && max.Scalar? ==>
              CachedLogDensity(log, x, min, max, minSeen, maxSeen) == Fin(-(|x.xs| as real) * LogDiffTerm(log, x, min, max))
    ensures !(x.Vector? && min.Scalar? && max.Scalar?) ==>
              CachedLogDensity(log, x, min, max, minSeen, maxSeen) == Fin(-LogDiffTerm(log, x, min, max))
  {
    if x.Vector? && min.Scalar? && max.Scalar? {
      SharedBoundsLogWidths(log, x, min.v, max.v);
    }
  }

  /** The log-widths depend on the observations only through their number. */
  lemma LogWidthsOfSameSize(log: real -> real, x: Arg, x': Arg, min: Arg, max: Arg)
    requires Shapes(x, min, max) && SameShape(x', x)
    ensures Shapes(x', min, max)
    ensures LogWidths(log, x', min, max) == LogWidths(log, x, min, max)
  {
    assert forall i :: 0 <= i < Size(x) ==> Width(x', min, max, i) == Width(x, min, max, i);
  }

  /** The value forward evaluation returns once the caches are up to date:
      `-inf` when the range test fails, else minus the log-widths. */
  function CachedLogDensity(log: real -> real, x: Arg, min: Arg, max: Arg, minSeen: Arg, maxSeen: Arg): (r: Ext)
    requires Shapes(x, min, max) && SameShape(minSeen, min) && SameShape(maxSeen, max)
    ensures r == NegInf <==> !SeenInSupport(x, min, max, minSeen, maxSeen)
    ensures SeenInSupport(x, min, max, minSeen, maxSeen) ==> r == Fin(-Sum(LogWidths(log, x, min, max)))
  {
    if SeenInSupport(x, min, max, minSeen, maxSeen) then Fin(-Sum(LogWidths(log, x, min, max))) else NegInf
  }

  /** With summaries taken against the current bounds, the cached value is
      the log-density. */
  lemma FreshCachedLogDensity(log: real -> real, x: Arg, min: Arg, max: Arg)
    requires Shapes(x, min, max)
    ensures CachedLogDensity(log, x, min, max, min, max) == LogDensity(log, x, min, max)
  {
    FreshSummariesAreSupport(x, min, max);
  }

  /** A uniform log-density node over leaf operands. `log` is the natural
      logarithm; `xConst`, `minConst` and `maxConst` say which operands are
      constants. The caches are those of the specialisations: the log-width
      term, the extreme observations and whether every observation is above
      (below) its vector bound. `minSeen` and `maxSeen` record the bounds the
      observation summaries were last taken against. */
  class UniformNode {
    const log: real -> real
    const xConst: bool
    const minConst: bool
    const maxConst: bool
    var x: Arg
    var min: Arg
    var max: Arg
    var minAdj: Arg
    var maxAdj: Arg
    var value: Ext
    var logDiff: real
    var xMin: real
    var xMax: real
    var xBoundedBelow: bool
    var xBoundedAbove: bool
    ghost var minSeen: Arg
    ghost var maxSeen: Arg

    /** The shapes, the log-width term of constant bounds (computed once,
        at construction), and the summaries of a constant `x` outside case
        vvv (also computed once, at construction). */
    ghost predicate Valid()
      reads this
    {
      Shapes(x, min, max) && SameShape(minAdj, min) && SameShape(maxAdj, max) &&
      SameShape(minSeen, min) && SameShape(maxSeen, max) &&
      (minConst && maxConst ==> logDiff == LogDiffTerm(log, x, min, max)) &&
      (xConst && !AllVectors(x, min, max) ==>
         Summarised(x, min, max, xMin, xMax, xBoundedBelow, xBoundedAbove, minSeen, maxSeen))
    }

    /** `within_range`, read from the caches. */
    predicate WithinRange()
      reads this
      requires Valid()
    {
      CachedInRange(x, min, max, xMin, xMax, xBoundedBelow, xBoundedAbove)
    }

    /** The caches are those forward evaluation leaves: the summaries are
        taken, and against the current bounds unless `x` is constant. */
    ghost predicate Evaluated()
      reads this
      requires Valid()
    {
      Summarised(x, min, max, xMin, xMax, xBoundedBelow, xBoundedAbove, minSeen, maxSeen) &&
      (!xConst ==> minSeen == min && maxSeen == max)
    }

    /** The constructor computes the log-width term when both bounds are
        constants, and the summaries of a constant `x` against the bounds
        as they are at construction. */
    constructor (log: real -> real, x: Arg, min: Arg, max: Arg, xConst: bool, minConst: bool, maxConst: bool)
      requires Shapes(x, min, max)
      ensures Valid() && this.log == log && this.x == x && this.min == min && this.max == max
      ensures this.xConst == xConst && this.minConst == minConst && this.maxConst == maxConst
      ensures minAdj == ZeroLike(min) && maxAdj == ZeroLike(max)
      ensures minSeen == min && maxSeen == max
      ensures xConst && !AllVectors(x, min, max) ==> Evaluated()
    {
      this.log, this.x, this.min, this.max := log, x, min, max;
      this.xConst, this.minConst, this.maxConst := xConst, minConst, maxConst;
      minAdj, maxAdj := ZeroLike(min), ZeroLike(max);
      minSeen, maxSeen := min, max;
      value := Fin(0.0);
      logDiff := if minConst && maxConst then LogDiffTerm(log, x, min, max) else 0.0;
      var mn, mx, below, above := 0.0, 0.0, false, false;
      if xConst && !AllVectors(x, min, max) {
        mn, mx, below, above := RangeSummaries(x, min, max, mn, mx, below, above);
      }
      xMin, xMax, xBoundedBelow, xBoundedAbove := mn, mx, below, above;
    }

    /** New values written into the storage of the non-constant leaves
        between evaluations; constant operands are held by value and keep
        theirs. No cache is touched. */
    method SetValues(x': Arg, min': Arg, max': Arg)
      requires Valid() && SameShape(x', x) && SameShape(min', min) && SameShape(max', max)
      requires xConst ==> x' == x
      requires minConst ==> min' == min
      requires maxConst ==> max' == max
      modifies this
      ensures Valid() && x == x' && min == min' && max == max'
      ensures value == old(value) && logDiff == old(logDiff)
      ensures xMin == old(xMin) && xMax == old(xMax)
      ensures xBoundedBelow == old(xBoundedBelow) && xBoundedAbove == old(xBoundedAbove)
      ensures minSeen == old(minSeen) && maxSeen == old(maxSeen)
      ensures minAdj == old(minAdj) && maxAdj == old(maxAdj)
    {
      if minConst && maxConst {
        LogWidthsOfSameSize(log, x, x', min, max);
      }
      x, min, max := x', min', max';
    }

    /** `update_log_diff_cache`: the log-width term of the current bounds. */
    method UpdateLogDiffCache()
      requires Valid()
      modifies this`logDiff
      ensures Valid() && logDiff == LogDiffTerm(log, x, min, max)
    {
      logDiff := LogDiffTerm(log, x, min, max);
    }

    /** `update_x_cache` unless `x` is constant: the summaries of the
        current observations against the current bounds; case vvv, which
        has no `update_x_cache`, recomputes its flags in any case. */
    method UpdateXCache()
      requires Valid()
      modifies this`xMin, this`xMax, this`xBoundedBelow, this`xBoundedAbove, this`minSeen, this`maxSeen
      ensures Valid() && Evaluated()
      ensures WithinRange() <==> SeenInSupport(x, min, max, minSeen, maxSeen)
      ensures xConst ==> minSeen == old(minSeen) && maxSeen == old(maxSeen)
    {
      if !xConst {
        var mn, mx, below, above := RangeSummaries(x, min, max, xMin, xMax, xBoundedBelow, xBoundedAbove);
        xMin, xMax, xBoundedBelow, xBoundedAbove := mn, mx, below, above;
        minSeen, maxSeen := min, max;
      } else if AllVectors(x, min, max) {
        xBoundedBelow, xBoundedAbove := AboveAll(x, min), BelowAll(x, max);
      }
      CachedRange(x, min, max, xMin, xMax, xBoundedBelow, xBoundedAbove, minSeen, maxSeen);
    }

    /** The cache updates forward evaluation makes: the log-width term unless
        both bounds are constants, then the observation summaries. */
    method UpdateCache()
      requires Valid()
      modifies this
      ensures Valid() && Evaluated()
      ensures logDiff == LogDiffTerm(log, x, min, max)
      ensures WithinRange() <==> SeenInSupport(x, min, max, minSeen, maxSeen)
      ensures xConst ==> minSeen == old(minSeen) && maxSeen == old(maxSeen)
      ensures x == old(x) && min == old(min) && max == old(max) && value == old(value)
      ensures minAdj == old(minAdj) && maxAdj == old(maxAdj)
    {
      if !(minConst && maxConst) {
        UpdateLogDiffCache();
      }
      UpdateXCache();
    }

    /** Forward evaluation refreshes the caches and stores `-inf` when the
        range test fails, else minus the log-width term (times the number of
        observations in case vss). For a non-constant `x` that is the
        log-density. */
    method Feval() returns (v: Ext)
      requires Valid()
      modifies this
      ensures Valid() && Evaluated()
      ensures v == value == CachedLogDensity(log, x, min, max, minSeen, maxSeen)
      ensures !xConst ==> v == LogDensity(log, x, min, max)
      ensures xConst ==> minSeen == old(minSeen) && maxSeen == old(maxSeen)
      ensures x == old(x) && min == old(min) && max == old(max)
      ensures minAdj == old(minAdj) && maxAdj == old(maxAdj)
    {
      UpdateCache();
      v := CachedValueNow();
      if !xConst {
        FreshCachedLogDensity(log, x, min, max);
      }
      Store(v);
    }

    /** The value forward evaluation forms from up-to-date caches: `-inf`
        when `within_range` fails, else minus the log-width term (times the
        number of observations in case vss). */
    method CachedValueNow() returns (v: Ext)
      requires Valid() && Evaluated() && logDiff == LogDiffTerm(log, x, min, max)
      ensures v == CachedLogDensity(log, x, min, max, minSeen, maxSeen)
    {
      CachedRange(x, min, max, xMin, xMax, xBoundedBelow, xBoundedAbove, minSeen, maxSeen);
      if !WithinRange() {
        v := NegInf;
      } else {
        CachedValue(log, x, min, max, minSeen, maxSeen);
        if x.Vector? && min.Scalar? && max.Scalar? {
          v := Fin(-(|x.xs| as real) * logDiff);
        } else {
          v := Fin(-logDiff);
        }
      }
    }

    /** Stores the value of forward evaluation. */
    method Store(v: Ext)
      requires Valid() && Evaluated()
      modifies this`value
      ensures Valid() && Evaluated() && value == v
    {
      value := v;
    }

    /** Backward evaluation after forward evaluation: nothing for a zero seed
        or when the range test fails; otherwise each non-constant bound
        receives its seed, `max` first. */
    method Beval(seed: real)
      requires Valid() && Evaluated()
      requires SeenInSupport(x, min, max, minSeen, maxSeen) ==> WidthsNonZero(x, min, max)
      modifies this
      ensures Valid() && Evaluated()
      ensures x == old(x) && min == old(min) && max == old(max) && value == old(value)
      ensures logDiff == old(logDiff) && xMin == old(xMin) && xMax == old(xMax)
      ensures xBoundedBelow == old(xBoundedBelow) && xBoundedAbove == old(xBoundedAbove)
      ensures minSeen == old(minSeen) && maxSeen == old(maxSeen)
      ensures minAdj == if minConst || seed == 0.0 || !SeenInSupport(x, min, max, minSeen, maxSeen) then old(minAdj)
                        else AddArg(old(minAdj), MinSeed(seed, x, min, max))
      ensures maxAdj == if maxConst || seed == 0.0 || !SeenInSupport(x, min, max, minSeen, maxSeen) then old(maxAdj)
                        else AddArg(old(maxAdj), MaxSeed(seed, x, min, max))
    {
      CachedRange(x, min, max, xMin, xMax, xBoundedBelow, xBoundedAbove, minSeen, maxSeen);
      if seed == 0.0 || !WithinRange() {
        return;
      }
      if !maxConst {
        maxAdj := AddArg(maxAdj, MaxSeed(seed, x, min, max));
      }
      if !minConst {
        minAdj := AddArg(minAdj, MinSeed(seed, x, min, max));
      }
    }
  }

  /** A constant `x` against a variable upper bound (case vsv): the
      summaries are taken at construction, when `max` holds 0.2, and are not
      refreshed when `max` is later set to 1. Forward evaluation then returns
      `-inf`, although the observation 0.5 lies in the support `(0, 1)`. */
  method StaleRangeAtConstantX(log: real -> real) returns (v: Ext)
    ensures v == NegInf
    ensures LogDensity(log, Vector([0.5]), Scalar(0.0), Vector([1.0])) == Fin(-log(1.0))
  {
    var node := new UniformNode(log, Vector([0.5]), Scalar(0.0), Vector([0.2]), true, false, false);
    node.SetValues(Vector([0.5]), Scalar(0.0), Vector([1.0]));
    v := node.Feval();
    assert !BelowAll(Vector([0.5]), Vector([0.2])) by {
      assert At(Vector([0.5]), 0) == 0.5 && At(Vector([0.2]), 0) == 0.2;
    }
    var x, lo, hi := Vector([0.5]), Scalar(0.0), Vector([1.0]);
    assert InSupport(x, lo, hi) by {
      assert At(x, 0) == 0.5 && At(lo, 0) == 0.0 && At(hi, 0) == 1.0;
    }
    assert Width(x, lo, hi, 0) == 1.0;
    assert LogWidths(log, x, lo, hi) == [log(1.0)];
    assert Sum([log(1.0)]) == log(1.0) + Sum([]);
  }
}
