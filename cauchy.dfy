/** `CauchyAdjLogPDFNode`: the Cauchy log-density of observations `x` with
    location `loc` and scale `scale`, adjusted to omit the constant
    `-log(pi)` of every observation. Cases by operand shape: sss, vss, vsv,
    vvs, vvv (`x`, then `loc`, then `scale`). All three operands receive
    adjoints. */
module Cauchy {
  import opened Numeric
  import opened StatArgs
  import CauchyRef

  /** The shapes the node is specialised for: a scalar observation comes with
      scalar parameters; a vector of observations with parameters that are
      scalars or have one entry per observation. */
  predicate Shapes(x: Arg, loc: Arg, scale: Arg)
  {
    if x.Scalar? then loc.Scalar? && scale.Scalar?
    else Conforms(loc, |x.xs|) && Conforms(scale, |x.xs|)
  }

  /** `within_range`: the scale is positive, entry by entry for a vector. */
  predicate ScalePositive(scale: Arg)
  {
    if scale.Scalar? then scale.v > 0.0
    else forall i :: 0 <= i < |scale.xs| ==> scale.xs[i] > 0.0
  }

  /** `x_i - loc_i`. */
  function Diff(x: Arg, loc: Arg, scale: Arg, i: nat): real
    requires Shapes(x, loc, scale) && i < Size(x)
  {
    At(x, i) - At(loc, i)
  }

  /** `gamma_i`, positive within range. */
  function Gamma(x: Arg, loc: Arg, scale: Arg, i: nat): (g: real)
    requires Shapes(x, loc, scale) && ScalePositive(scale) && i < Size(x)
    ensures g > 0.0
  {
    At(scale, i)
  }

  /** `gamma + diff^2/gamma`, whose log is minus the adjusted log-density of
      one observation. */
  function Inner(d: real, g: real): real
    requires g != 0.0
  {
    g + d * d / g
  }

  /** The adjoint of one observation per unit seed, `-2 d / (g^2 + d^2)`,
      computed as the specialisations do through `g * inner`. */
  function XRate(d: real, g: real): real
    requires g != 0.0
  {
    CauchyRef.DenomNonZero(g, d);
    -2.0 * d / (g * Inner(d, g))
  }

  /** The x rate is the one number whose product with `g^2 + d^2` is
      `-2 d`. */
  lemma XRateSolves(d: real, g: real)
    requires g != 0.0
    ensures XRate(d, g) * (g * g + d * d) == -2.0 * d
  {
    CauchyRef.DenomNonZero(g, d);
  }

  /** The adjoint of one observation's scale per unit seed,
      `(-1/g) (XRate d + 1)`. */
  function ScaleRate(d: real, g: real): real
    requires g != 0.0
  {
    (-1.0 / g) * (XRate(d, g) * d + 1.0)
  }

  lemma OnePlusSquare(u: real)
    ensures 1.0 + u * u > 0.0
  {
    assert u * u >= 0.0 by {
      if u < 0.0 {
        assert u * u == (-u) * (-u);
      }
    }
  }

  /** `gamma + d^2/gamma = gamma (1 + z^2)` with `z = d/gamma`. */
  lemma InnerFactor(d: real, g: real)
    requires g != 0.0
    ensures Inner(d, g) == g * (1.0 + (d / g) * (d / g))
  {
    var u := d / g;
    assert d == u * g;
    assert d * d / g == u * u * g;
  }

  /** The scale rate is the derivative of `-log(gamma (1 + z^2))` in
      `gamma`, `-(1 - z^2) / (gamma + d^2/gamma)`, the textbook form the
      reference oracles use. */
  lemma ScaleRateIsTextbook(d: real, g: real)
    requires g != 0.0
    ensures ScaleRate(d, g) == -CauchyRef.ScaleTerm(d, g)
  {
    var u := d / g;
    var w := 1.0 + u * u;
    OnePlusSquare(u);
    var D := Inner(d, g);
    InnerFactor(d, g);
    assert D == g * w;
    var r := XRate(d, g);
    assert r == -2.0 * d / (g * D);
    assert r == -2.0 * u / (g * w) by {
      assert d == u * g;
      assert g * D == g * (g * w);
    }
    assert r * d == -2.0 * u * u / w;
    assert r * d + 1.0 == (1.0 - u * u) / w;
    assert ScaleRate(d, g) == -((1.0 - u * u) / (g * w));
    assert CauchyRef.ScaleTerm(d, g) == (1.0 - u * u) / D;
  }

  /** Reflecting an observation about its location negates its adjoint and
      keeps that of its scale. */
  lemma RatesUnderReflection(d: real, g: real)
    requires g != 0.0
    ensures XRate(-d, g) == -XRate(d, g)
    ensures ScaleRate(-d, g) == ScaleRate(d, g)
  {
    assert Inner(-d, g) == Inner(d, g) by {
      assert (-d) * (-d) == d * d;
    }
    CauchyRef.DenomNonZero(g, d);
    assert XRate(-d, g) == -2.0 * (-d) / (g * Inner(d, g));
    assert XRate(-d, g) * (-d) == XRate(d, g) * d;
  }

  /** `log(gamma_i + d_i^2/gamma_i)` for every observation. */
  function LogInners(log: real -> real, x: Arg, loc: Arg, scale: Arg): (l: seq<real>)
    requires Shapes(x, loc, scale) && ScalePositive(scale)
    ensures |l| == Size(x)
  {
    seq(Size(x), i requires 0 <= i < Size(x) =>
      log(Inner(Diff(x, loc, scale, i), Gamma(x, loc, scale, i))))
  }

  /** The adjusted log-density: `-inf` for a scale that is not positive,
      else minus the log-inner terms summed over the observations. */
  function LogDensity(log: real -> real, x: Arg, loc: Arg, scale: Arg): (r: Ext)
    requires Shapes(x, loc, scale)
    ensures r == NegInf <==> !ScalePositive(scale)
    ensures r.Fin? ==> r.r == -Sum(LogInners(log, x, loc, scale))
  {
    if ScalePositive(scale) then Fin(-Sum(LogInners(log, x, loc, scale))) else NegInf
  }

  /** With a scalar observation the log-density is one log-inner term. */
  lemma ScalarLogDensity(log: real -> real, x: Arg, loc: Arg, scale: Arg)
    requires Shapes(x, loc, scale) && ScalePositive(scale) && x.Scalar?
    ensures LogDensity(log, x, loc, scale) == Fin(-log(Inner(x.v - loc.v, scale.v)))
  {
    var l := LogInners(log, x, loc, scale);
    assert Diff(x, loc, scale, 0) == x.v - loc.v && Gamma(x, loc, scale, 0) == scale.v;
    assert l[0] == log(Inner(x.v - loc.v, scale.v));
    assert l == [l[0]];
    assert Sum(l) == l[0] + Sum([]);
  }

  function XRates(x: Arg, loc: Arg, scale: Arg): (r: seq<real>)
    requires Shapes(x, loc, scale) && ScalePositive(scale)
    ensures |r| == Size(x)
  {
    seq(Size(x), i requires 0 <= i < Size(x) =>
      XRate(Diff(x, loc, scale, i), Gamma(x, loc, scale, i)))
  }

  function ScaleRates(x: Arg, loc: Arg, scale: Arg): (r: seq<real>)
    requires Shapes(x, loc, scale) && ScalePositive(scale)
    ensures |r| == Size(x)
  {
    seq(Size(x), i requires 0 <= i < Size(x) =>
      ScaleRate(Diff(x, loc, scale, i), Gamma(x, loc, scale, i)))
  }

  /** The gradient with respect to `x` (what seed 1 passes to `x`). */
  function XGrad(x: Arg, loc: Arg, scale: Arg): (g: Arg)
    requires Shapes(x, loc, scale) && ScalePositive(scale)
    ensures SameShape(g, x)
  {
    var r := XRates(x, loc, scale);
    if x.Scalar? then Scalar(r[0]) else Vector(r)
  }

  /** The gradient with respect to `loc`: a scalar location collects minus
      every observation's adjoint, a vector one minus its own. */
  function LocGrad(x: Arg, loc: Arg, scale: Arg): (g: Arg)
    requires Shapes(x, loc, scale) && ScalePositive(scale)
    ensures SameShape(g, loc)
  {
    var r := XRates(x, loc, scale);
    if loc.Scalar? then Scalar(-Sum(r)) else Vector(Neg(r))
  }

  /** The gradient with respect to `scale`: a scalar scale collects every
      observation's scale rate. */
  function ScaleGrad(x: Arg, loc: Arg, scale: Arg): (g: Arg)
    requires Shapes(x, loc, scale) && ScalePositive(scale)
    ensures SameShape(g, scale)
  {
    var r := ScaleRates(x, loc, scale);
    if scale.Scalar? then Scalar(Sum(r)) else Vector(r)
  }

  /** `dx`, the seed times the observations' gradient, as the vector
      specialisations compute it. */
  function XSeeds(seed: real, x: Arg, loc: Arg, scale: Arg): (dx: seq<real>)
    requires Shapes(x, loc, scale) && ScalePositive(scale) && x.Vector?
    ensures |dx| == |x.xs|
  {
    Scale(seed, XRates(x, loc, scale))
  }

  /** The seed the vector specialisations pass to `loc` as written: `dx`
      already carries the seed, and `(-seed) * dx` multiplies by it again. */
  function LocSeedAsWritten(seed: real, x: Arg, loc: Arg, scale: Arg): (g: Arg)
    requires Shapes(x, loc, scale) && ScalePositive(scale) && x.Vector?
    ensures SameShape(g, loc)
  {
    var dx := XSeeds(seed, x, loc, scale);
    if loc.Scalar? then Scalar((-seed) * Sum(dx)) else Vector(Scale(-seed, dx))
  }

  /** `dx * diff`, entrywise. */
  function Weighted(dx: seq<real>, x: Arg, loc: Arg, scale: Arg): (w: seq<real>)
    requires Shapes(x, loc, scale) && |dx| == Size(x)
    ensures |w| == |dx|
  {
    seq(|dx|, i requires 0 <= i < |dx| => dx[i] * Diff(x, loc, scale, i))
  }

  /** The seed the vector specialisations pass to `scale` as written:
      `(-seed/gamma) (dx * diff + 1)`, summed for a scalar scale, where the
      seed in `dx` is multiplied by the seed again. */
  function ScaleSeedAsWritten(seed: real, x: Arg, loc: Arg, scale: Arg): (g: Arg)
    requires Shapes(x, loc, scale) && ScalePositive(scale) && x.Vector?
    ensures SameShape(g, scale)
  {
    var dx := XSeeds(seed, x, loc, scale);
    var n := |x.xs|;
    if scale.Scalar? then
      Scalar((-seed / scale.v) * (Sum(Weighted(dx, x, loc, scale)) + n as real))
    else
      Vector(seq(n, i requires 0 <= i < n =>
        (-seed / scale.xs[i]) * (dx[i] * Diff(x, loc, scale, i) + 1.0)))
  }

  lemma SumScaledTwice(seed: real, r: seq<real>)
    ensures Scalar((-seed) * Sum(Scale(seed, r))) == ScaleArg(seed * seed, Scalar(-Sum(r)))
  {
    SumScale(seed, r);
  }

  lemma ScaledTwice(seed: real, r: seq<real>)
    ensures Vector(Scale(-seed, Scale(seed, r))) == ScaleArg(seed * seed, Vector(Neg(r)))
  {
    var a, b := Scale(-seed, Scale(seed, r)), Scale(seed * seed, Neg(r));
    forall i | 0 <= i < |r|
      ensures a[i] == b[i]
    {
      assert a[i] == (-seed) * (seed * r[i]);
    }
    assert a == b;
  }

  /** As written, the location receives the seed squared times its
      gradient. */
  lemma LocAsWrittenIsSeedSquared(seed: real, x: Arg, loc: Arg, scale: Arg)
    requires Shapes(x, loc, scale) && ScalePositive(scale) && x.Vector?
    ensures LocSeedAsWritten(seed, x, loc, scale) == ScaleArg(seed * seed, LocGrad(x, loc, scale))
  {
    if loc.Scalar? {
      SumScaledTwice(seed, XRates(x, loc, scale));
    } else {
      ScaledTwice(seed, XRates(x, loc, scale));
    }
  }

  lemma ScaleArgOne(a: Arg)
    ensures ScaleArg(1.0, a) == a
  {
    ArgExt(ScaleArg(1.0, a), a);
  }

  lemma EachScaleAsWrittenAtOne(x: Arg, loc: Arg, scale: Arg)
    requires Shapes(x, loc, scale) && ScalePositive(scale) && x.Vector? && scale.Vector?
    ensures ScaleSeedAsWritten(1.0, x, loc, scale) == ScaleGrad(x, loc, scale)
  {
    var n := |x.xs|;
    var a := ScaleSeedAsWritten(1.0, x, loc, scale);
    var dx := XSeeds(1.0, x, loc, scale);
    var r := XRates(x, loc, scale);
    var sr := ScaleRates(x, loc, scale);
    forall i | 0 <= i < n
      ensures a.xs[i] == sr[i]
    {
      assert Gamma(x, loc, scale, i) == scale.xs[i];
      assert dx[i] == 1.0 * r[i] == r[i];
    }
    assert a.xs == sr;
  }

  /** With seed 1 the as-written seeds are the gradients, which is all the
      reference oracles compare (shown here for the location and for a scale
      per observation). */
  lemma AsWrittenAgreesAtSeedOne(x: Arg, loc: Arg, scale: Arg)
    requires Shapes(x, loc, scale) && ScalePositive(scale) && x.Vector?
    ensures LocSeedAsWritten(1.0, x, loc, scale) == LocGrad(x, loc, scale)
    ensures scale.Vector? ==> ScaleSeedAsWritten(1.0, x, loc, scale) == ScaleGrad(x, loc, scale)
  {
    LocAsWrittenIsSeedSquared(1.0, x, loc, scale);
    ScaleArgOne(LocGrad(x, loc, scale));
    if scale.Vector? {
      EachScaleAsWrittenAtOne(x, loc, scale);
    }
  }

  /** The one-observation instance of the counterexamples below:
      observation 1, location 0, scale 1. */
  lemma UnitInstance()
    ensures Shapes(Vector([1.0]), Scalar(0.0), Scalar(1.0)) && ScalePositive(Scalar(1.0))
    ensures XRates(Vector([1.0]), Scalar(0.0), Scalar(1.0)) == [-1.0]
    ensures ScaleRates(Vector([1.0]), Scalar(0.0), Scalar(1.0)) == [0.0]
  {
    UnitXRates();
    UnitScaleRates();
  }

  lemma UnitXRates()
    ensures Shapes(Vector([1.0]), Scalar(0.0), Scalar(1.0)) && ScalePositive(Scalar(1.0))
    ensures XRates(Vector([1.0]), Scalar(0.0), Scalar(1.0)) == [-1.0]
  {
    OneObservation(1.0, 0.0, 1.0);
    UnitRates();
  }

  lemma UnitScaleRates()
    ensures Shapes(Vector([1.0]), Scalar(0.0), Scalar(1.0)) && ScalePositive(Scalar(1.0))
    ensures ScaleRates(Vector([1.0]), Scalar(0.0), Scalar(1.0)) == [0.0]
  {
    OneObservation(1.0, 0.0, 1.0);
    UnitRates();
  }

  /** A single observation against scalar parameters has the rates of its
      difference. */
  lemma OneObservation(x0: real, l0: real, g: real)
    requires g > 0.0
    ensures Shapes(Vector([x0]), Scalar(l0), Scalar(g)) && ScalePositive(Scalar(g))
    ensures XRates(Vector([x0]), Scalar(l0), Scalar(g)) == [XRate(x0 - l0, g)]
    ensures ScaleRates(Vector([x0]), Scalar(l0), Scalar(g)) == [ScaleRate(x0 - l0, g)]
  {
    var x, loc, scale := Vector([x0]), Scalar(l0), Scalar(g);
    var r, sr := XRates(x, loc, scale), ScaleRates(x, loc, scale);
    Singleton(r);
    Singleton(sr);
    assert Diff(x, loc, scale, 0) == x0 - l0 && Gamma(x, loc, scale, 0) == g;
  }

  lemma Singleton(r: seq<real>)
    requires |r| == 1
    ensures r == [r[0]]
  {
  }

  lemma UnitRates()
    ensures XRate(1.0, 1.0) == -1.0
    ensures ScaleRate(1.0, 1.0) == 0.0
  {
    XRateSolves(1.0, 1.0);
    var r := XRate(1.0, 1.0);
    assert r * 2.0 == -2.0;
    assert ScaleRate(1.0, 1.0) == (-1.0 / 1.0) * (r * 1.0 + 1.0);
  }

  /** Counterexample with seed 2 for the location: it should receive 2 and
      receives 4. */
  lemma LocAsWrittenSeedTwo()
    ensures Shapes(Vector([1.0]), Scalar(0.0), Scalar(1.0)) && ScalePositive(Scalar(1.0))
    ensures LocSeedAsWritten(2.0, Vector([1.0]), Scalar(0.0), Scalar(1.0)) == Scalar(4.0)
    ensures ScaleArg(2.0, LocGrad(Vector([1.0]), Scalar(0.0), Scalar(1.0))) == Scalar(2.0)
  {
    UnitInstance();
    var x, loc, scale := Vector([1.0]), Scalar(0.0), Scalar(1.0);
    var r := XRates(x, loc, scale);
    assert Sum(r) == -1.0 + Sum([]);
    LocAsWrittenIsSeedSquared(2.0, x, loc, scale);
  }

  /** Counterexample with seed 2 for the scale: it should receive 0 and
      receives 2. */
  lemma ScaleAsWrittenSeedTwo()
    ensures Shapes(Vector([1.0]), Scalar(0.0), Scalar(1.0)) && ScalePositive(Scalar(1.0))
    ensures ScaleSeedAsWritten(2.0, Vector([1.0]), Scalar(0.0), Scalar(1.0)) == Scalar(2.0)
    ensures ScaleArg(2.0, ScaleGrad(Vector([1.0]), Scalar(0.0), Scalar(1.0))) == Scalar(0.0)
  {
    OneObservation(1.0, 0.0, 1.0);
    OneObservationScaleSeed(2.0, 1.0, 0.0, 1.0);
    UnitRates();
    assert Sum([ScaleRate(1.0, 1.0)]) == ScaleRate(1.0, 1.0) + Sum([]);
  }

  /** One observation against a scalar scale: as written, the scale receives
      `(-seed/g) (seed r d + 1)`, with the seed inside `dx` counted twice. */
  lemma OneObservationScaleSeed(seed: real, x0: real, l0: real, g: real)
    requires g > 0.0
    ensures Shapes(Vector([x0]), Scalar(l0), Scalar(g)) && ScalePositive(Scalar(g))
    ensures ScaleSeedAsWritten(seed, Vector([x0]), Scalar(l0), Scalar(g)) ==
            Scalar((-seed / g) * (seed * XRate(x0 - l0, g) * (x0 - l0) + 1.0))
  {
    var x, loc, scale := Vector([x0]), Scalar(l0), Scalar(g);
    var d := x0 - l0;
    OneObservation(x0, l0, g);
    var dx := XSeeds(seed, x, loc, scale);
    Singleton(dx);
    assert dx[0] == seed * XRate(d, g);
    var w := Weighted(dx, x, loc, scale);
    Singleton(w);
    assert w[0] == dx[0] * d;
    assert Sum(w) == w[0] + Sum([]);
  }

  /** The adjoints of the observations and of the location cancel, as the
      density depends on `x - loc` only. */
  lemma XAndLocGradsCancel(x: Arg, loc: Arg, scale: Arg)
    requires Shapes(x, loc, scale) && ScalePositive(scale)
    ensures Sum(Flat(XGrad(x, loc, scale))) + Sum(Flat(LocGrad(x, loc, scale))) == 0.0
  {
    var r := XRates(x, loc, scale);
    assert Flat(XGrad(x, loc, scale)) == r;
    if loc.Vector? {
      SumNeg(r);
    } else {
      assert Sum([-Sum(r)]) == -Sum(r) + Sum([]);
    }
  }

  /** Shifting the observations and the location together changes neither
      the density nor the gradients. */
  lemma ShiftInvariant(log: real -> real, x: Arg, loc: Arg, scale: Arg, c: real)
    requires Shapes(x, loc, scale)
    ensures Shapes(Shift(x, c), Shift(loc, c), scale)
    ensures LogDensity(log, Shift(x, c), Shift(loc, c), scale) == LogDensity(log, x, loc, scale)
    ensures ScalePositive(scale) ==>
              XGrad(Shift(x, c), Shift(loc, c), scale) == XGrad(x, loc, scale) &&
              LocGrad(Shift(x, c), Shift(loc, c), scale) == LocGrad(x, loc, scale) &&
              ScaleGrad(Shift(x, c), Shift(loc, c), scale) == ScaleGrad(x, loc, scale)
  {
    var x', loc' := Shift(x, c), Shift(loc, c);
    forall i | 0 <= i < Size(x)
      ensures Diff(x', loc', scale, i) == Diff(x, loc, scale, i)
    {
      assert At(x', i) == At(x, i) + c && At(loc', i) == At(loc, i) + c;
    }
    if ScalePositive(scale) {
      var l, l' := LogInners(log, x, loc, scale), LogInners(log, x', loc', scale);
      forall i | 0 <= i < Size(x)
        ensures l'[i] == l[i]
      {
        assert Gamma(x', loc', scale, i) == Gamma(x, loc, scale, i);
      }
      assert l' == l;
      var r, r' := XRates(x, loc, scale), XRates(x', loc', scale);
      forall i | 0 <= i < Size(x)
        ensures r'[i] == r[i]
      {
        assert Gamma(x', loc', scale, i) == Gamma(x, loc, scale, i);
      }
      assert r' == r;
      var sr, sr' := ScaleRates(x, loc, scale), ScaleRates(x', loc', scale);
      forall i | 0 <= i < Size(x)
        ensures sr'[i] == sr[i]
      {
        assert Gamma(x', loc', scale, i) == Gamma(x, loc, scale, i);
      }
      assert sr' == sr;
    }
  }

  // Agreement with the reference oracles, shape by shape.

  /** sss: within range the node's gradient is the oracle's. */
  lemma SssAgreesWithOracle(x: real, loc: real, scale: real)
    requires scale > 0.0
    ensures CauchyRef.SssBeval(x, loc, scale) ==
            Ok(Flat(XGrad(Scalar(x), Scalar(loc), Scalar(scale))) +
               Flat(LocGrad(Scalar(x), Scalar(loc), Scalar(scale))) +
               Flat(ScaleGrad(Scalar(x), Scalar(loc), Scalar(scale))))
  {
    var X, L, S := Scalar(x), Scalar(loc), Scalar(scale);
    var d := x - loc;
    var dx, st := CauchyRef.Dx(d, scale), CauchyRef.ScaleTerm(d, scale);
    CauchyRef.SssInRange(x, loc, scale);
    RatesMatchOracle(d, scale);
    assert Diff(X, L, S, 0) == d && Gamma(X, L, S, 0) == scale;
    assert XRates(X, L, S) == [dx];
    assert ScaleRates(X, L, S) == [-st];
    assert Sum([dx]) == dx + Sum([]);
    assert Sum([-st]) == -st + Sum([]);
    assert Flat(XGrad(X, L, S)) + Flat(LocGrad(X, L, S)) + Flat(ScaleGrad(X, L, S)) == [dx] + [-dx] + [-st];
    assert [dx] + [-dx] + [-st] == [dx, -dx, -st];
  }

  /** One observation: the node's rates are the oracles' `dx` and minus
      their scale term. */
  lemma RatesMatchOracle(d: real, g: real)
    requires g != 0.0
    ensures XRate(d, g) == CauchyRef.Dx(d, g)
    ensures ScaleRate(d, g) == -CauchyRef.ScaleTerm(d, g)
  {
    ScaleRateIsTextbook(d, g);
  }

  /** The oracles' `dx` against a shared scale is the node's `x` gradient. */
  lemma SharedScaleRates(xs: seq<real>, loc: Arg, scale: real, d: seq<real>)
    requires scale > 0.0 && Shapes(Vector(xs), loc, Scalar(scale))
    requires |d| == |xs| && forall i :: 0 <= i < |d| ==> d[i] == xs[i] - At(loc, i)
    ensures CauchyRef.DxShared(d, scale) == XRates(Vector(xs), loc, Scalar(scale))
    ensures Neg(CauchyRef.TermsShared(d, scale)) == ScaleRates(Vector(xs), loc, Scalar(scale))
  {
    var X, S := Vector(xs), Scalar(scale);
    var r, sr := XRates(X, loc, S), ScaleRates(X, loc, S);
    var dx, t := CauchyRef.DxShared(d, scale), CauchyRef.TermsShared(d, scale);
    forall i | 0 <= i < |xs|
      ensures dx[i] == r[i] && Neg(t)[i] == sr[i]
    {
      assert Diff(X, loc, S, i) == d[i] && Gamma(X, loc, S, i) == scale;
      RatesMatchOracle(d[i], scale);
    }
  }

  /** The oracles' `dx` against a scale per observation is the node's `x`
      gradient. */
  lemma EachScaleRates(xs: seq<real>, loc: Arg, scales: seq<real>, d: seq<real>)
    requires |scales| == |xs| && ScalePositive(Vector(scales)) && Shapes(Vector(xs), loc, Vector(scales))
    requires |d| == |xs| && forall i :: 0 <= i < |d| ==> d[i] == xs[i] - At(loc, i)
    ensures NoZero(scales)
    ensures CauchyRef.DxEach(d, scales) == XRates(Vector(xs), loc, Vector(scales))
    ensures Neg(CauchyRef.TermsEach(d, scales)) == ScaleRates(Vector(xs), loc, Vector(scales))
  {
    var X, S := Vector(xs), Vector(scales);
    var r, sr := XRates(X, loc, S), ScaleRates(X, loc, S);
    var dx, t := CauchyRef.DxEach(d, scales), CauchyRef.TermsEach(d, scales);
    forall i | 0 <= i < |xs|
      ensures dx[i] == r[i] && Neg(t)[i] == sr[i]
    {
      assert Diff(X, loc, S, i) == d[i] && Gamma(X, loc, S, i) == scales[i];
      RatesMatchOracle(d[i], scales[i]);
    }
  }

  /** vss: within range the node's gradient is the oracle's. */
  lemma VssAgreesWithOracle(xs: seq<real>, loc: real, scale: real)
    requires scale > 0.0
    ensures CauchyRef.VssBeval(xs, loc, scale) ==
            Ok(Flat(XGrad(Vector(xs), Scalar(loc), Scalar(scale))) +
               Flat(LocGrad(Vector(xs), Scalar(loc), Scalar(scale))) +
               Flat(ScaleGrad(Vector(xs), Scalar(loc), Scalar(scale))))
  {
    var X, L, S := Vector(xs), Scalar(loc), Scalar(scale);
    var d := Diffs(xs, loc);
    SharedScaleRates(xs, L, scale, d);
    var t := CauchyRef.TermsShared(d, scale);
    SumNeg(t);
    var r, sr := XRates(X, L, S), ScaleRates(X, L, S);
    assert Flat(XGrad(X, L, S)) == r;
    assert Flat(LocGrad(X, L, S)) == [-Sum(r)];
    assert Flat(ScaleGrad(X, L, S)) == [-Sum(t)];
    assert r + [-Sum(r)] + [-Sum(t)] == r + [-Sum(r), -Sum(t)];
  }

  /** vsv: within range the node's gradient is the oracle's. */
  lemma VsvAgreesWithOracle(xs: seq<real>, loc: real, scales: seq<real>)
    requires |scales| == |xs| && ScalePositive(Vector(scales))
    ensures CauchyRef.VsvBeval(xs, loc, scales) ==
            Ok(Flat(XGrad(Vector(xs), Scalar(loc), Vector(scales))) +
               Flat(LocGrad(Vector(xs), Scalar(loc), Vector(scales))) +
               Flat(ScaleGrad(Vector(xs), Scalar(loc), Vector(scales))))
  {
    var L := Scalar(loc);
    var d := Diffs(xs, loc);
    EachScaleRates(xs, L, scales, d);
  }

  /** vvs: within range the node's gradient is the oracle's. */
  lemma VvsAgreesWithOracle(xs: seq<real>, locs: seq<real>, scale: real)
    requires |locs| == |xs| && scale > 0.0
    ensures CauchyRef.VvsBeval(xs, locs, scale) ==
            Ok(Flat(XGrad(Vector(xs), Vector(locs), Scalar(scale))) +
               Flat(LocGrad(Vector(xs), Vector(locs), Scalar(scale))) +
               Flat(ScaleGrad(Vector(xs), Vector(locs), Scalar(scale))))
  {
    var L := Vector(locs);
    var d := PairDiffs(xs, locs);
    SharedScaleRates(xs, L, scale, d);
    SumNeg(CauchyRef.TermsShared(d, scale));
  }

  /** vvv: within range the node's gradient is the oracle's. */
  lemma VvvAgreesWithOracle(xs: seq<real>, locs: seq<real>, scales: seq<real>)
    requires |locs| == |xs| && |scales| == |xs| && ScalePositive(Vector(scales))
    ensures CauchyRef.VvvBeval(xs, locs, scales) ==
            Ok(Flat(XGrad(Vector(xs), Vector(locs), Vector(scales))) +
               Flat(LocGrad(Vector(xs), Vector(locs), Vector(scales))) +
               Flat(ScaleGrad(Vector(xs), Vector(locs), Vector(scales))))
  {
    var L := Vector(locs);
    var d := PairDiffs(xs, locs);
    EachScaleRates(xs, L, scales, d);
  }

  /** `log` turns products of positive numbers into sums. */
  predicate LogOfProduct(log: real -> real, a: real, b: real)
  {
    log(a * b) == log(a) + log(b)
  }

  ghost predicate Multiplicative(log: real -> real)
  {
    forall a, b :: 0.0 < a && 0.0 < b ==> LogOfProduct(log, a, b)
  }

  /** `log(p) = log(a) + log(b)` for any name `p` of the product `a b`. */
  lemma LogOfNamedProduct(log: real -> real, a: real, b: real, p: real)
    requires Multiplicative(log) && 0.0 < a && 0.0 < b && p == a * b
    ensures log(p) == log(a) + log(b)
  {
    assert LogOfProduct(log, a, b);
  }

  /** One observation: scipy's log-density plus `log(pi)` is minus the log of
      the inner term. */
  lemma ObsLogPdf(log: real -> real, pi: real, x: real, loc: real, scale: real)
    requires Multiplicative(log) && scale > 0.0
    ensures CauchyRef.LogPdf(log, pi, x, loc, scale).r == -log(pi) - log(Inner(x - loc, scale))
  {
    OnePlusSquare((x - loc) / scale);
    InnerFactor(x - loc, scale);
    LogOfNamedProduct(log, scale, 1.0 + ((x - loc) / scale) * ((x - loc) / scale), Inner(x - loc, scale));
  }

  /** One observation's reference log-density, `log(pi)` added back, is
      minus its log-inner term. */
  lemma ObsAgreesWithOracle(log: real -> real, pi: real, x: Arg, loc: Arg, scale: Arg, i: nat)
    requires Shapes(x, loc, scale) && ScalePositive(scale) && Multiplicative(log) && i < Size(x)
    ensures At(scale, i) > 0.0
    ensures CauchyRef.LogPdf(log, pi, At(x, i), At(loc, i), At(scale, i)).r ==
            -log(pi) - LogInners(log, x, loc, scale)[i]
  {
    assert Gamma(x, loc, scale, i) == At(scale, i);
    assert Diff(x, loc, scale, i) == At(x, i) - At(loc, i);
    assert LogInners(log, x, loc, scale)[i] == log(Inner(At(x, i) - At(loc, i), At(scale, i)));
    ObsLogPdf(log, pi, At(x, i), At(loc, i), At(scale, i));
  }

  /** Forward evaluation within range agrees with the reference value, the
      summed scipy log-density with `n log(pi)` added back, whenever `log` is
      multiplicative. */
  lemma FevalAgreesWithOracle(log: real -> real, pi: real, x: Arg, loc: Arg, scale: Arg)
    requires Shapes(x, loc, scale) && ScalePositive(scale) && Multiplicative(log)
    ensures Conforms(loc, Size(x)) && Conforms(scale, Size(x))
    ensures LogDensity(log, x, loc, scale) ==
            CauchyRef.AdjLogPdf(log, pi, Broadcast(x, Size(x)), Broadcast(loc, Size(x)), Broadcast(scale, Size(x)))
  {
    var n := Size(x);
    var xs, ls, ss := Broadcast(x, n), Broadcast(loc, n), Broadcast(scale, n);
    OracleEntries(log, pi, x, loc, scale, xs, ls, ss);
    SumWithCorrection(CauchyRef.LogPdfs(log, pi, xs, ls, ss), LogInners(log, x, loc, scale), log(pi), n);
  }

  /** Terms `-k - l_i` summed, with `n k` added back, are `-sum(l)`. */
  lemma SumWithCorrection(t: seq<real>, l: seq<real>, k: real, n: nat)
    requires |t| == |l| == n && forall i :: 0 <= i < n ==> t[i] == Neg(Consts(n, k))[i] + Neg(l)[i]
    ensures Sum(t) + Sum(Consts(n, k)) == -Sum(l)
  {
    SumPointwiseAdd(Neg(Consts(n, k)), Neg(l), t);
    SumNeg(Consts(n, k));
    SumNeg(l);
  }

  lemma OracleEntries(log: real -> real, pi: real, x: Arg, loc: Arg, scale: Arg,
                      xs: seq<real>, ls: seq<real>, ss: seq<real>)
    requires Shapes(x, loc, scale) && ScalePositive(scale) && Multiplicative(log)
    requires Conforms(loc, Size(x)) && Conforms(scale, Size(x))
    requires xs == Broadcast(x, Size(x)) && ls == Broadcast(loc, Size(x)) && ss == Broadcast(scale, Size(x))
    ensures forall i :: 0 <= i < |ss| ==> ss[i] > 0.0
    ensures forall i :: 0 <= i < Size(x) ==>
              CauchyRef.LogPdfs(log, pi, xs, ls, ss)[i] ==
              Neg(Consts(Size(x), log(pi)))[i] + Neg(LogInners(log, x, loc, scale))[i]
  {
    forall i | 0 <= i < Size(x)
      ensures ss[i] > 0.0
      ensures CauchyRef.LogPdfs(log, pi, xs, ls, ss)[i] ==
              Neg(Consts(Size(x), log(pi)))[i] + Neg(LogInners(log, x, loc, scale))[i]
    {
      assert xs[i] == At(x, i) && ls[i] == At(loc, i) && ss[i] == At(scale, i);
      ObsAgreesWithOracle(log, pi, x, loc, scale, i);
    }
  }

  /** A Cauchy log-density node over leaf operands. `log` is the natural
      logarithm; `innerTerm` is the scalar specialisation's cache. */
  class CauchyNode {
    const log: real -> real
    var x: Arg
    var loc: Arg
    var scale: Arg
    var xAdj: Arg
    var locAdj: Arg
    var scaleAdj: Arg
    var value: Ext
    var innerTerm: real

    ghost predicate Valid()
      reads this
    {
      Shapes(x, loc, scale) &&
      SameShape(xAdj, x) && SameShape(locAdj, loc) && SameShape(scaleAdj, scale)
    }

    /** The cache describes the current operands. */
    ghost predicate Evaluated()
      reads this
      requires Valid()
    {
      x.Scalar? && ScalePositive(scale) ==> innerTerm == Inner(x.v - loc.v, scale.v)
    }

    constructor (log: real -> real, x: Arg, loc: Arg, scale: Arg)
      requires Shapes(x, loc, scale)
      ensures Valid() && this.log == log && this.x == x && this.loc == loc && this.scale == scale
      ensures xAdj == ZeroLike(x) && locAdj == ZeroLike(loc) && scaleAdj == ZeroLike(scale)
    {
      this.log, this.x, this.loc, this.scale := log, x, loc, scale;
      xAdj, locAdj, scaleAdj := ZeroLike(x), ZeroLike(loc), ZeroLike(scale);
      value, innerTerm := Fin(0.0), 0.0;
    }

    /** Forward evaluation stores the adjusted log-density: `-inf` out of
        range, else minus the summed log-inner terms; the scalar case caches
        its inner term for backward evaluation. */
    method Feval() returns (v: Ext)
      requires Valid()
      modifies this
      ensures Valid() && Evaluated()
      ensures v == value == LogDensity(log, x, loc, scale)
      ensures x == old(x) && loc == old(loc) && scale == old(scale)
      ensures xAdj == old(xAdj) && locAdj == old(locAdj) && scaleAdj == old(scaleAdj)
    {
      if !ScalePositive(scale) {
        v := NegInf;
      } else if x.Scalar? {
        innerTerm := Inner(x.v - loc.v, scale.v);
        ScalarLogDensity(log, x, loc, scale);
        v := Fin(-log(innerTerm));
      } else {
        v := Fin(-Sum(LogInners(log, x, loc, scale)));
      }
      value := v;
    }

    /** Backward evaluation after forward evaluation: nothing for a zero seed
        or out of range; otherwise `scale`, `loc` and `x` receive the seed
        times their gradients, in that order. The scalar case computes its
        seeds from the cached inner term. */
    method Beval(seed: real)
      requires Valid() && Evaluated()
      modifies this
      ensures Valid() && Evaluated()
      ensures x == old(x) && loc == old(loc) && scale == old(scale) && value == old(value)
      ensures seed == 0.0 || !ScalePositive(scale) ==>
                xAdj == old(xAdj) && locAdj == old(locAdj) && scaleAdj == old(scaleAdj)
      ensures seed != 0.0 && ScalePositive(scale) ==>
                xAdj == AddArg(old(xAdj), ScaleArg(seed, XGrad(x, loc, scale))) &&
                locAdj == AddArg(old(locAdj), ScaleArg(seed, LocGrad(x, loc, scale))) &&
                scaleAdj == AddArg(old(scaleAdj), ScaleArg(seed, ScaleGrad(x, loc, scale)))
    {
      if seed == 0.0 || !ScalePositive(scale) {
        return;
      }
      if x.Scalar? {
        var xSeed, locSeed, scaleSeed := ScalarSeeds(seed);
        scaleAdj := AddArg(scaleAdj, Scalar(scaleSeed));
        locAdj := AddArg(locAdj, Scalar(locSeed));
        xAdj := AddArg(xAdj, Scalar(xSeed));
      } else {
        scaleAdj := AddArg(scaleAdj, ScaleArg(seed, ScaleGrad(x, loc, scale)));
        locAdj := AddArg(locAdj, ScaleArg(seed, LocGrad(x, loc, scale)));
        xAdj := AddArg(xAdj, ScaleArg(seed, XGrad(x, loc, scale)));
      }
    }

    /** The scalar specialisation's seeds, from the cached inner term:
        `x0_adj = 2 d / (gamma inner)`, `x_adj = -x0_adj` and
        `gamma_adj = (x0_adj d - 1) / gamma`, each times the seed. */
    method ScalarSeeds(seed: real) returns (xSeed: real, locSeed: real, scaleSeed: real)
      requires Valid() && Evaluated() && x.Scalar? && ScalePositive(scale)
      ensures Scalar(xSeed) == ScaleArg(seed, XGrad(x, loc, scale))
      ensures Scalar(locSeed) == ScaleArg(seed, LocGrad(x, loc, scale))
      ensures Scalar(scaleSeed) == ScaleArg(seed, ScaleGrad(x, loc, scale))
    {
      var d := x.v - loc.v;
      var g := scale.v;
      CauchyRef.DenomNonZero(g, d);
      var x0Adj := 2.0 * d / (g * innerTerm);
      var xAdjUnit := -x0Adj;
      var gammaAdj := 1.0 / g * (x0Adj * d - 1.0);
      var r := XRate(d, g);
      assert x0Adj == -r;
      assert Diff(x, loc, scale, 0) == d && Gamma(x, loc, scale, 0) == g;
      assert XRates(x, loc, scale) == [r];
      assert ScaleRates(x, loc, scale) == [ScaleRate(d, g)];
      assert Sum([r]) == r + Sum([]);
      assert Sum([ScaleRate(d, g)]) == ScaleRate(d, g) + Sum([]);
      assert gammaAdj == ScaleRate(d, g);
      xSeed, locSeed, scaleSeed := seed * xAdjUnit, seed * x0Adj, seed * gammaAdj;
    }
  }

  /** A fresh node, evaluated forward and then backward with `seed`: the
      location and the scale receive `seed` times their gradients. */
  method FreshSeeds(log: real -> real, x: Arg, loc: Arg, scale: Arg, seed: real) returns (locSeed: Arg, scaleSeed: Arg)
    requires Shapes(x, loc, scale) && ScalePositive(scale) && seed != 0.0
    ensures locSeed == AddArg(ZeroLike(loc), ScaleArg(seed, LocGrad(x, loc, scale)))
    ensures scaleSeed == AddArg(ZeroLike(scale), ScaleArg(seed, ScaleGrad(x, loc, scale)))
  {
    var node := new CauchyNode(log, x, loc, scale);
    var _ := node.Feval();
    node.Beval(seed);
    locSeed, scaleSeed := node.locAdj, node.scaleAdj;
  }

  lemma CorrectedLocTwo()
    ensures Shapes(Vector([1.0]), Scalar(0.0), Scalar(1.0)) && ScalePositive(Scalar(1.0))
    ensures AddArg(ZeroLike(Scalar(0.0)), ScaleArg(2.0, LocGrad(Vector([1.0]), Scalar(0.0), Scalar(1.0)))) == Scalar(2.0)
  {
    LocAsWrittenSeedTwo();
  }

  lemma CorrectedScaleTwo()
    ensures Shapes(Vector([1.0]), Scalar(0.0), Scalar(1.0)) && ScalePositive(Scalar(1.0))
    ensures AddArg(ZeroLike(Scalar(1.0)), ScaleArg(2.0, ScaleGrad(Vector([1.0]), Scalar(0.0), Scalar(1.0)))) == Scalar(0.0)
  {
    ScaleAsWrittenSeedTwo();
  }

  /** The corrected vector rule on the counterexample input (observation 1,
      location 0, scale 1) at seed 2: the node's location adjoint becomes 2
      and its scale adjoint 0, seed times the gradient, where the seeds as
      written are 4 and 2. */
  method CorrectedSeedTwo(log: real -> real) returns (locSeed: Arg, scaleSeed: Arg)
    ensures locSeed == Scalar(2.0) && scaleSeed == Scalar(0.0)
    ensures LocSeedAsWritten(2.0, Vector([1.0]), Scalar(0.0), Scalar(1.0)) == Scalar(4.0)
    ensures ScaleSeedAsWritten(2.0, Vector([1.0]), Scalar(0.0), Scalar(1.0)) == Scalar(2.0)
  {
    CorrectedLocTwo();
    CorrectedScaleTwo();
    locSeed, scaleSeed := FreshSeeds(log, Vector([1.0]), Scalar(0.0), Scalar(1.0), 2.0);
    LocAsWrittenSeedTwo();
    ScaleAsWrittenSeedTwo();
  }
}
