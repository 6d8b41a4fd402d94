/** The Python reference gradients of the uniform log-density, against which
    the unit tests compare the node's adjoints after backward evaluation with
    seed 1. The fixtures (`scl_x`, `vec_min`, ...) are parameters here; each
    result lists the adjoint of `min` (of every `min_i`) before that of `max`
    (of every `max_i`). Observations get no adjoint. */
module UniformRef {
  import opened Numeric

  /** `sss_beval`: `v = 1/(max - min)`, computed before the support test, so
      equal bounds raise; inside the open support the gradient is `(v, -v)`,
      outside it is exactly `(0, 0)`. */
  function SssBeval(x: real, min: real, max: real): (r: Outcome<seq<real>>)
    ensures r.Err? <==> max == min
    ensures r.Ok? ==> |r.value| == 2 && r.value[1] == -r.value[0]
    ensures r.Ok? && min < x < max ==> r.value[0] * (max - min) == 1.0
    ensures r.Ok? && !(min < x < max) ==> r.value == [0.0, 0.0]
  {
    if max - min == 0.0 then Err(DivisionByZero)
    else
      var v := 1.0 / (max - min);
      if min < x && x < max then Ok([v, -v]) else Ok([0.0, 0.0])
  }

  /** `vss_beval` as written: `len(vec_x)` times `sss_beval()`, which tests the
      scalar fixture `scl_x` against the bounds instead of the observations
      `vec_x`. */
  function VssBevalAsWritten(sclX: real, vecX: seq<real>, min: real, max: real): (r: Outcome<seq<real>>)
    ensures r.Err? <==> max == min
    ensures r.Ok? ==> |r.value| == 2 && r.value[1] == -r.value[0]
    ensures r.Ok? ==> r.value[0] == |vecX| as real * SssBeval(sclX, min, max).value[0]
  {
    match SssBeval(sclX, min, max)
    case Err(e) => Err(e)
    case Ok(g) => Ok(Scale(|vecX| as real, g))
  }

  /** The contents of `vec_x` play no part in the as-written `vss_beval`. */
  lemma VssAsWrittenIgnoresObservations(sclX: real, a: seq<real>, b: seq<real>, min: real, max: real)
    requires |a| == |b|
    ensures VssBevalAsWritten(sclX, a, min, max) == VssBevalAsWritten(sclX, b, min, max)
  {
  }

  predicate AllInSupport(xs: seq<real>, min: real, max: real)
  {
    forall i :: 0 <= i < |xs| ==> min < xs[i] < max
  }

  /** `vss_beval` as evidently intended: `len(vec_x)` times the scalar rule,
      with every observation tested against the support. */
  function VssBeval(xs: seq<real>, min: real, max: real): (r: Outcome<seq<real>>)
    ensures r.Err? <==> max == min
    ensures r.Ok? ==> |r.value| == 2 && r.value[1] == -r.value[0]
    ensures r.Ok? && AllInSupport(xs, min, max) ==> r.value[0] * (max - min) == |xs| as real
    ensures r.Ok? && !AllInSupport(xs, min, max) ==> r.value == [0.0, 0.0]
  {
    if max - min == 0.0 then Err(DivisionByZero)
    else
      var v := 1.0 / (max - min);
      var n := |xs| as real;
      if AllInSupport(xs, min, max) then
        assert (n * v) * (max - min) == n * (v * (max - min));
        Ok([n * v, -(n * v)])
      else Ok([0.0, 0.0])
  }

  /** For observations that all lie in the support the two readings agree
      whenever the scalar fixture does too, which is why the fixtures cannot
      tell them apart. */
  lemma VssReadingsAgreeInSupport(sclX: real, xs: seq<real>, min: real, max: real)
    requires min < sclX < max
    requires AllInSupport(xs, min, max)
    ensures VssBevalAsWritten(sclX, xs, min, max) == VssBeval(xs, min, max)
  {
    var v, n := 1.0 / (max - min), |xs| as real;
    var g := Scale(n, [v, -v]);
    assert g[0] == n * v && g[1] == n * -v == -(n * v);
    assert g == [n * v, -(n * v)];
    assert SssBeval(sclX, min, max) == Ok([v, -v]);
    assert VssBevalAsWritten(sclX, xs, min, max) == Ok(g);
    var r := VssBeval(xs, min, max);
    assert r.Ok?;
    assert r.value[0] == n * v;
    assert r.value == [n * v, -(n * v)];
  }

  /** Counterexample: an observation outside the support, where the density is
      zero and the node passes no adjoint, still gets the in-support gradient
      from the as-written oracle. */
  lemma VssAsWrittenMissesOutOfSupport()
    ensures VssBevalAsWritten(0.5, [5.0], 0.0, 1.0) == Ok([1.0, -1.0])
    ensures VssBeval([5.0], 0.0, 1.0) == Ok([0.0, 0.0])
  {
    assert !AllInSupport([5.0], 0.0, 1.0) by {
      assert !(0.0 < [5.0][0] < 1.0);
    }
    assert Scale(1.0, [1.0, -1.0]) == [1.0, -1.0];
  }

  /** `vsv_beval`: `dM_i = -1/(max_i - min)` and `dm = sum(-dM)`; numpy divides
      by zero into an infinity, which is no gradient. */
  function VsvBeval(min: real, maxs: seq<real>): (r: Outcome<seq<real>>)
    ensures r.Err? <==> exists i :: 0 <= i < |maxs| && maxs[i] == min
    ensures r.Ok? ==> |r.value| == |maxs| + 1 && r.value[0] == -Sum(r.value[1..])
    ensures r.Ok? ==> forall i :: 0 <= i < |maxs| ==> r.value[i + 1] * (maxs[i] - min) == -1.0
  {
    if exists i :: 0 <= i < |maxs| && maxs[i] == min then Err(DivisionByZero)
    else
      var dM := seq(|maxs|, i requires 0 <= i < |maxs| => -1.0 / (maxs[i] - min));
      SumNeg(dM);
      assert ([Sum(Neg(dM))] + dM)[1..] == dM;
      Ok([Sum(Neg(dM))] + dM)
  }

  /** `vvs_beval`: `dm_i = 1/(max - min_i)` and `dM = sum(-dm)`. */
  function VvsBeval(mins: seq<real>, max: real): (r: Outcome<seq<real>>)
    ensures r.Err? <==> exists i :: 0 <= i < |mins| && mins[i] == max
    ensures r.Ok? ==> |r.value| == |mins| + 1 && r.value[|mins|] == -Sum(r.value[..|mins|])
    ensures r.Ok? ==> forall i :: 0 <= i < |mins| ==> r.value[i] * (max - mins[i]) == 1.0
  {
    if exists i :: 0 <= i < |mins| && mins[i] == max then Err(DivisionByZero)
    else
      var dm := seq(|mins|, i requires 0 <= i < |mins| => 1.0 / (max - mins[i]));
      SumNeg(dm);
      assert (dm + [Sum(Neg(dm))])[..|mins|] == dm;
      Ok(dm + [Sum(Neg(dm))])
  }

  /** `vvv_beval`: `dM_i = -1/(max_i - min_i)` and `dm = -dM`, listed as
      `dm ++ dM`. */
  function VvvBeval(mins: seq<real>, maxs: seq<real>): (r: Outcome<seq<real>>)
    requires |mins| == |maxs|
    ensures r.Err? <==> exists i :: 0 <= i < |mins| && mins[i] == maxs[i]
    ensures r.Ok? ==> |r.value| == 2 * |mins| && r.value[..|mins|] == Neg(r.value[|mins|..])
    ensures r.Ok? ==> forall i :: 0 <= i < |mins| ==> r.value[i] * (maxs[i] - mins[i]) == 1.0
  {
    if exists i :: 0 <= i < |mins| && mins[i] == maxs[i] then Err(DivisionByZero)
    else
      var dM := seq(|maxs|, i requires 0 <= i < |maxs| => -1.0 / (maxs[i] - mins[i]));
      assert (Neg(dM) + dM)[..|mins|] == Neg(dM);
      assert (Neg(dM) + dM)[|mins|..] == dM;
      Ok(Neg(dM) + dM)
  }
}
