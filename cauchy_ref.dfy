/** The Python reference values of the Cauchy log-density and its gradient,
    against which the unit tests compare the node after forward evaluation
    and after backward evaluation with seed 1. The fixtures are parameters
    here; each gradient lists the adjoint of `x` (of every `x_i`), then of
    `loc`, then of `scale`. numpy turns a division by zero into an infinity
    or a NaN, which is no gradient: `Err(DivisionByZero)` stands for both
    that and Python's `ZeroDivisionError`. */
module CauchyRef {
  import opened Numeric

  lemma SquaresPositive(s: real, d: real)
    requires s != 0.0
    ensures s * s + d * d > 0.0
  {
    assert s * s > 0.0 by {
      if s < 0.0 {
        assert s * s == (-s) * (-s);
      }
    }
    assert d * d >= 0.0 by {
      if d < 0.0 {
        assert d * d == (-d) * (-d);
      }
    }
  }

  /** The `denom` of the scale rules, `s + d^2/s`, is `(s^2 + d^2)/s`. */
  lemma DenomNonZero(s: real, d: real)
    requires s != 0.0
    ensures s * (s + d * d / s) == s * s + d * d
    ensures s + d * d / s != 0.0
  {
    SquaresPositive(s, d);
  }

  /** The adjoint of one observation: `-2 d / (s^2 + d^2)`. */
  function Dx(d: real, s: real): real
    requires s != 0.0
  {
    DenomNonZero(s, d);
    -2.0 * d / (s * (s + d * d / s))
  }

  /** `Dx` is the one number whose product with `s^2 + d^2` is `-2 d`. */
  lemma DxSolves(d: real, s: real)
    requires s != 0.0
    ensures Dx(d, s) * (s * s + d * d) == -2.0 * d
  {
    DenomNonZero(s, d);
  }

  /** One observation's term of the scale adjoint before its sign:
      `(1 - (d/s)^2) / (s + d^2/s)`. */
  function ScaleTerm(d: real, s: real): real
    requires s != 0.0
  {
    DenomNonZero(s, d);
    (1.0 - (d / s) * (d / s)) / (s + d * d / s)
  }

  /** `sss_beval`'s `dgamma`: `((d/s)^2 - 1) / denom`. */
  function SssDGamma(d: real, s: real): real
    requires s != 0.0
  {
    DenomNonZero(s, d);
    ((d / s) * (d / s) - 1.0) / (s + d * d / s)
  }

  /** `sss_beval`'s `dgamma` is minus the scale term of the vector rules. */
  lemma SssDGammaIsNegatedTerm(d: real, s: real)
    requires s != 0.0
    ensures SssDGamma(d, s) == -ScaleTerm(d, s)
  {
    DenomNonZero(s, d);
    var a, q := (d / s) * (d / s), s + d * d / s;
    assert (a - 1.0) / q == -((1.0 - a) / q);
  }

  /** `sss_beval`: `denom` divides by `scale` before the support test, so a
      zero scale raises; a negative one gives `[0, 0, 0]`. */
  function SssBeval(x: real, loc: real, scale: real): (r: Outcome<seq<real>>)
    ensures r.Err? <==> scale == 0.0
    ensures r.Ok? ==> |r.value| == 3 && r.value[1] == -r.value[0]
    ensures r.Ok? && scale < 0.0 ==> r.value == [0.0, 0.0, 0.0]
  {
    if scale == 0.0 then Err(DivisionByZero)
    else if scale > 0.0 then
      var dx := Dx(x - loc, scale);
      Ok([dx, -dx, SssDGamma(x - loc, scale)])
    else Ok([0.0, 0.0, 0.0])
  }

  /** Within range `sss_beval` is `Dx`, its negation and minus the scale
      term. */
  lemma SssInRange(x: real, loc: real, scale: real)
    requires scale > 0.0
    ensures SssBeval(x, loc, scale) ==
            Ok([Dx(x - loc, scale), -Dx(x - loc, scale), -ScaleTerm(x - loc, scale)])
  {
    SssDGammaIsNegatedTerm(x - loc, scale);
  }

  /** `dx` against a scalar scale. */
  function DxShared(d: seq<real>, s: real): (dx: seq<real>)
    requires s != 0.0
    ensures |dx| == |d|
  {
    seq(|d|, i requires 0 <= i < |d| => Dx(d[i], s))
  }

  /** `dx` against a scale per observation. */
  function DxEach(d: seq<real>, ss: seq<real>): (dx: seq<real>)
    requires |d| == |ss| && forall i :: 0 <= i < |ss| ==> ss[i] != 0.0
    ensures |dx| == |d|
  {
    seq(|d|, i requires 0 <= i < |d| => Dx(d[i], ss[i]))
  }

  function TermsShared(d: seq<real>, s: real): (t: seq<real>)
    requires s != 0.0
    ensures |t| == |d|
  {
    seq(|d|, i requires 0 <= i < |d| => ScaleTerm(d[i], s))
  }

  function TermsEach(d: seq<real>, ss: seq<real>): (t: seq<real>)
    requires |d| == |ss| && forall i :: 0 <= i < |ss| ==> ss[i] != 0.0
    ensures |t| == |d|
  {
    seq(|d|, i requires 0 <= i < |d| => ScaleTerm(d[i], ss[i]))
  }


  /** `vss_beval`: `dx`, then `dx0 = -sum(dx)`, then
      `dgamma = -sum(terms)`. Unlike `sss_beval` it has no support test. */
  function VssBeval(xs: seq<real>, loc: real, scale: real): (r: Outcome<seq<real>>)
    ensures r.Err? <==> scale == 0.0
    ensures r.Ok? ==> |r.value| == |xs| + 2 && r.value[|xs|] == -Sum(r.value[..|xs|])
  {
    if scale == 0.0 then Err(DivisionByZero)
    else
      var dx := DxShared(Diffs(xs, loc), scale);
      var dgamma := -Sum(TermsShared(Diffs(xs, loc), scale));
      assert (dx + [-Sum(dx), dgamma])[..|xs|] == dx;
      Ok(dx + [-Sum(dx), dgamma])
  }

  /** `vsv_beval`: `dx`, then `dx0 = -sum(dx)`, then `dgamma = -terms`
      entrywise. */
  function VsvBeval(xs: seq<real>, loc: real, scales: seq<real>): (r: Outcome<seq<real>>)
    requires |xs| == |scales|
    ensures r.Err? <==> !NoZero(scales)
    ensures r.Ok? ==> |r.value| == 2 * |xs| + 1 && r.value[|xs|] == -Sum(r.value[..|xs|])
  {
    if !NoZero(scales) then Err(DivisionByZero)
    else
      var dx := DxEach(Diffs(xs, loc), scales);
      var dgamma := Neg(TermsEach(Diffs(xs, loc), scales));
      assert (dx + [-Sum(dx)] + dgamma)[..|xs|] == dx;
      Ok(dx + [-Sum(dx)] + dgamma)
  }

  /** `vvs_beval`: `dx`, then `dx0 = -dx`, then `dgamma = -sum(terms)`. */
  function VvsBeval(xs: seq<real>, locs: seq<real>, scale: real): (r: Outcome<seq<real>>)
    requires |xs| == |locs|
    ensures r.Err? <==> scale == 0.0
    ensures r.Ok? ==> |r.value| == 2 * |xs| + 1 && r.value[|xs|..2 * |xs|] == Neg(r.value[..|xs|])
  {
    if scale == 0.0 then Err(DivisionByZero)
    else
      var dx := DxShared(PairDiffs(xs, locs), scale);
      var dgamma := -Sum(TermsShared(PairDiffs(xs, locs), scale));
      var g := dx + Neg(dx) + [dgamma];
      assert g[..|xs|] == dx && g[|xs|..2 * |xs|] == Neg(dx);
      Ok(g)
  }

  /** `vvv_beval`: `dx`, then `dx0 = -dx`, then `dgamma = -terms`
      entrywise. */
  function VvvBeval(xs: seq<real>, locs: seq<real>, scales: seq<real>): (r: Outcome<seq<real>>)
    requires |xs| == |locs| == |scales|
    ensures r.Err? <==> !NoZero(scales)
    ensures r.Ok? ==> |r.value| == 3 * |xs| && r.value[|xs|..2 * |xs|] == Neg(r.value[..|xs|])
  {
    if !NoZero(scales) then Err(DivisionByZero)
    else
      var dx := DxEach(PairDiffs(xs, locs), scales);
      var dgamma := Neg(TermsEach(PairDiffs(xs, locs), scales));
      var g := dx + Neg(dx) + dgamma;
      assert g[..|xs|] == dx && g[|xs|..2 * |xs|] == Neg(dx);
      Ok(g)
  }

  /** scipy's `cauchy.logpdf` at one observation, by its textbook formula
      `-log(pi) - log(scale) - log(1 + ((x - loc)/scale)^2)`; a scale that
      is not positive gives NaN. */
  function LogPdf(log: real -> real, pi: real, x: real, loc: real, scale: real): (r: Ext)
    ensures r.NaN? <==> scale <= 0.0
  {
    if scale <= 0.0 then NaN
    else
      var z := (x - loc) / scale;
      Fin(-log(pi) - log(scale) - log(1.0 + z * z))
  }

  /** `cauchy_adj_log_pdf`: the summed log-density with the `n log(pi)`
      normalisation added back (`n = 1` for a scalar observation), written
      as `log(pi)` once per observation (`SumOfConsts` makes it the
      product); the operands arrive broadcast to one entry per
      observation. */
  function AdjLogPdf(log: real -> real, pi: real, xs: seq<real>, locs: seq<real>, scales: seq<real>): (r: Ext)
    requires |xs| == |locs| == |scales|
    ensures r.NaN? <==> exists i :: 0 <= i < |scales| && scales[i] <= 0.0
  {
    if exists i :: 0 <= i < |scales| && scales[i] <= 0.0 then NaN
    else Fin(Sum(LogPdfs(log, pi, xs, locs, scales)) + Sum(Consts(|xs|, log(pi))))
  }

  /** The finite log-densities of every observation, all scales being
      positive. */
  function LogPdfs(log: real -> real, pi: real, xs: seq<real>, locs: seq<real>, scales: seq<real>): (t: seq<real>)
    requires |xs| == |locs| == |scales| && forall i :: 0 <= i < |scales| ==> scales[i] > 0.0
    ensures |t| == |xs|
  {
    seq(|xs|, i requires 0 <= i < |xs| => LogPdf(log, pi, xs[i], locs[i], scales[i]).r)
  }
}
