/** The Python reference values of the normal log-density and its gradient,
    against which the unit tests compare the node after forward evaluation
    and after backward evaluation with seed 1. The fixtures are parameters
    here; each gradient lists the adjoint of `x` (of every `x_i`), then of
    `mu`, then of `sigma` (a covariance matrix flattened row by row).
    `Err(DivisionByZero)` stands for Python's `ZeroDivisionError` and for
    the infinities and NaNs numpy gives instead; `Err(ShapeIndex)` for the
    `IndexError` of `log_pdf_adj` at a one-dimensional sigma. */
module NormalRef {
  import opened Numeric
  import opened Dense
  import opened StatArgs

  /** `dx = -(x - mu) / sigma**2` of one observation, `d = x - mu`,
      dividing by `sigma` twice. */
  function Dx(d: real, s: real): real
    requires s != 0.0
  {
    -(d / s) / s
  }

  /** `dsigma = (((x - mu)/sigma)**2 - 1) / sigma` of one observation. */
  function DSigma(d: real, s: real): real
    requires s != 0.0
  {
    (Sq(d / s) - 1.0) / s
  }


  /** `dx` against a scalar sigma. */
  function DxShared(d: seq<real>, s: real): (dx: seq<real>)
    requires s != 0.0
    ensures |dx| == |d|
  {
    seq(|d|, i requires 0 <= i < |d| => Dx(d[i], s))
  }

  /** `dx` against a sigma per observation. */
  function DxEach(d: seq<real>, ss: seq<real>): (dx: seq<real>)
    requires |d| == |ss| && NoZero(ss)
    ensures |dx| == |d|
  {
    seq(|d|, i requires 0 <= i < |d| => Dx(d[i], ss[i]))
  }

  /** `dsigma` against a sigma per observation. */
  function DSigmaEach(d: seq<real>, ss: seq<real>): (g: seq<real>)
    requires |d| == |ss| && NoZero(ss)
    ensures |g| == |d|
  {
    seq(|d|, i requires 0 <= i < |d| => DSigma(d[i], ss[i]))
  }

  /** `(x - mu) / sigma**2` against a sigma per observation, the terms of
      `dmu`. */
  function DMuEach(d: seq<real>, ss: seq<real>): (g: seq<real>)
    requires |d| == |ss| && NoZero(ss)
    ensures |g| == |d|
  {
    seq(|d|, i requires 0 <= i < |d| => d[i] / ss[i] / ss[i])
  }

  /** `dsigma` of a scalar sigma: `(sum(((x - mu)/sigma)**2) - n) / sigma`. */
  function DSigmaShared(d: seq<real>, s: real): real
    requires s != 0.0
  {
    (SumSq(seq(|d|, i requires 0 <= i < |d| => d[i] / s)) - |d| as real) / s
  }

  /** `sss_beval`. No support test: a negative sigma gives the formulas'
      values, a zero one raises. */
  function SssBeval(x: real, mu: real, s: real): (r: Outcome<seq<real>>)
    ensures r.Err? <==> s == 0.0
    ensures r.Ok? ==> |r.value| == 3 && r.value[1] == -r.value[0]
  {
    if s == 0.0 then Err(DivisionByZero)
    else Ok([Dx(x - mu, s), -Dx(x - mu, s), DSigma(x - mu, s)])
  }

  /** `vss_beval`: `dx`, then `dmu = sum(x - mu) / sigma**2`, then
      `dsigma`. */
  function VssBeval(xs: seq<real>, mu: real, s: real): (r: Outcome<seq<real>>)
    ensures r.Err? <==> s == 0.0
    ensures r.Ok? ==> |r.value| == |xs| + 2
  {
    if s == 0.0 then Err(DivisionByZero)
    else
      var d := Diffs(xs, mu);
      Ok(DxShared(d, s) + [Sum(d) / s / s, DSigmaShared(d, s)])
  }

  /** `vvs_beval`: `dx`, then `dmu = -dx`, then `dsigma`. */
  function VvsBeval(xs: seq<real>, mus: seq<real>, s: real): (r: Outcome<seq<real>>)
    requires |xs| == |mus|
    ensures r.Err? <==> s == 0.0
    ensures r.Ok? ==> |r.value| == 2 * |xs| + 1 && r.value[|xs|..2 * |xs|] == Neg(r.value[..|xs|])
  {
    if s == 0.0 then Err(DivisionByZero)
    else
      var dx := DxShared(PairDiffs(xs, mus), s);
      var g := dx + Neg(dx) + [DSigmaShared(PairDiffs(xs, mus), s)];
      assert g[..|xs|] == dx && g[|xs|..2 * |xs|] == Neg(dx);
      Ok(g)
  }

  /** `vsv_beval`: `dx`, then `dmu = sum((x - mu) / sigma**2)`, then
      `dsigma` entrywise. */
  function VsvBeval(xs: seq<real>, mu: real, ss: seq<real>): (r: Outcome<seq<real>>)
    requires |xs| == |ss|
    ensures r.Err? <==> !NoZero(ss)
    ensures r.Ok? ==> |r.value| == 2 * |xs| + 1
  {
    if !NoZero(ss) then Err(DivisionByZero)
    else
      var d := Diffs(xs, mu);
      Ok(DxEach(d, ss) + [Sum(DMuEach(d, ss))] + DSigmaEach(d, ss))
  }

  /** `vvv_beval`: `dx`, then `dmu = -dx`, then `dsigma` entrywise. */
  function VvvBeval(xs: seq<real>, mus: seq<real>, ss: seq<real>): (r: Outcome<seq<real>>)
    requires |xs| == |mus| == |ss|
    ensures r.Err? <==> !NoZero(ss)
    ensures r.Ok? ==> |r.value| == 3 * |xs| && r.value[|xs|..2 * |xs|] == Neg(r.value[..|xs|])
  {
    if !NoZero(ss) then Err(DivisionByZero)
    else
      var dx := DxEach(PairDiffs(xs, mus), ss);
      var g := dx + Neg(dx) + DSigmaEach(PairDiffs(xs, mus), ss);
      assert g[..|xs|] == dx && g[|xs|..2 * |xs|] == Neg(dx);
      Ok(g)
  }

  /** `dsigma = -0.5 (inv - dx dx^T)` of the covariance cases. */
  function DCov(inv: Matrix, dx: seq<real>): (g: Matrix)
    requires Square(inv, |dx|)
    ensures Square(g, |dx|)
  {
    ScaledDiff(-0.5, inv, Outer(dx), |dx|)
  }

  /** `vsm_beval` with `inv = np.linalg.inv(sigma)` given: `dx = -inv (x -
      mu)`, then `dmu = -sum(dx)`, then `dsigma` flattened. */
  function VsmBeval(xs: seq<real>, mu: real, inv: Matrix): (r: seq<real>)
    requires Square(inv, |xs|)
    ensures |r| == |xs| + 1 + |xs| * |xs|
    ensures r[|xs|] == -Sum(r[..|xs|])
  {
    var dx := Neg(MatVec(inv, Diffs(xs, mu)));
    FlattenLength(DCov(inv, dx), |xs|);
    var r := dx + [-Sum(dx)] + Flatten(DCov(inv, dx));
    assert r[..|xs|] == dx;
    r
  }

  /** `vvm_beval` with `inv` given: `dx`, then `dmu = -dx`, then `dsigma`
      flattened. */
  function VvmBeval(xs: seq<real>, mus: seq<real>, inv: Matrix): (r: seq<real>)
    requires |xs| == |mus| && Square(inv, |xs|)
    ensures |r| == 2 * |xs| + |xs| * |xs|
    ensures r[|xs|..2 * |xs|] == Neg(r[..|xs|])
  {
    var dx := Neg(MatVec(inv, PairDiffs(xs, mus)));
    FlattenLength(DCov(inv, dx), |xs|);
    var r := dx + Neg(dx) + Flatten(DCov(inv, dx));
    assert r[..|xs|] == dx && r[|xs|..2 * |xs|] == Neg(dx);
    r
  }

  /** The covariance adjoint of the reference is symmetric whenever the
      inverse it starts from is. */
  lemma DCovSymmetric(inv: Matrix, dx: seq<real>)
    requires Square(inv, |dx|) && Symmetric(inv, |dx|)
    ensures Symmetric(DCov(inv, dx), |dx|)
  {
    OuterSymmetric(dx);
    ScaledDiffSymmetric(-0.5, inv, Outer(dx), |dx|);
  }

  /** scipy's normalising constant `log(sqrt(2 pi))`, which is half of
      `log(2 pi)`. */
  function LogNormConst(log: real -> real, pi: real): real
  {
    0.5 * log(2.0 * pi)
  }

  /** scipy's `norm.logpdf` at one observation: `-z^2/2 - log(sqrt(2 pi)) -
      log(sigma)` with `z = (x - mu)/sigma`; a sigma that is not positive
      gives NaN. */
  function LogPdf(log: real -> real, pi: real, x: real, mu: real, s: real): (r: Ext)
    ensures r.NaN? <==> s <= 0.0
  {
    if s <= 0.0 then NaN
    else
      var z := (x - mu) / s;
      Fin(-0.5 * z * z - LogNormConst(log, pi) - log(s))
  }

  /** The finite log-densities of every observation, all sigmas being
      positive. */
  function LogPdfs(log: real -> real, pi: real, xs: seq<real>, mus: seq<real>, ss: seq<real>): (t: seq<real>)
    requires |xs| == |mus| == |ss| && forall i :: 0 <= i < |ss| ==> ss[i] > 0.0
    ensures |t| == |xs|
  {
    seq(|xs|, i requires 0 <= i < |xs| => LogPdf(log, pi, xs[i], mus[i], ss[i]).r)
  }

  /** `log_pdf_adj` for a scalar or vector sigma: the summed log-density
      with `(n/2) log(2 pi)` added back (`n = 1` for a scalar observation),
      written as half of `log(2 pi)` once per observation; the operands
      arrive broadcast to one entry per observation. */
  function AdjLogPdf(log: real -> real, pi: real, xs: seq<real>, mus: seq<real>, ss: seq<real>): (r: Ext)
    requires |xs| == |mus| == |ss|
    ensures r.NaN? <==> exists i :: 0 <= i < |ss| && ss[i] <= 0.0
  {
    if exists i :: 0 <= i < |ss| && ss[i] <= 0.0 then NaN
    else Fin(Sum(LogPdfs(log, pi, xs, mus, ss)) + Sum(Consts(|xs|, LogNormConst(log, pi))))
  }

  /** `log_pdf_adj` as written. Its matrix test reads `s.shape[1]` of every
      numpy array, so a one-dimensional sigma (the `vec_sigma` of `vsv_feval`
      and `vvv_feval`) raises IndexError before any density is computed. A
      scalar sigma takes the univariate path, AdjLogPdf with that sigma
      shared by every observation. A square matrix sigma takes the
      multivariate path, which NormalCov models. */
  function AdjLogPdfAsWritten(log: real -> real, pi: real, xs: seq<real>, mus: seq<real>, sigma: Arg): (r: Outcome<Ext>)
    requires |xs| == |mus|
    ensures r.Err? <==> sigma.Vector?
    ensures r.Err? ==> r.error == ShapeIndex
    ensures r.Ok? && |xs| > 0 ==> (r.value.NaN? <==> sigma.v <= 0.0)
  {
    if sigma.Vector? then Err(ShapeIndex)
    else
      var ss := Broadcast(sigma, |xs|);
      assert |xs| > 0 ==> ss[0] == sigma.v;
      Ok(AdjLogPdf(log, pi, xs, mus, ss))
  }
}
