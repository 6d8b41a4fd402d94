/** The Python reference gradients of the Bernoulli log-mass, against which
    the unit tests compare the adjoint of `p` after backward evaluation with
    seed 1. The fixtures are parameters here. Unlike the node, the oracles
    never clip `p` to `(0, 1)`. */
module BernoulliRef {
  import opened Numeric

  /** The per-observation adjoint `adj(x, p)`: `1/p` for a success, `-1/(1-p)`
      for a failure; any other observation leaves the adjoint unassigned. */
  function Adj(x: real, p: real): (r: Outcome<real>)
    ensures r == Err(UndefinedAdjoint) <==> x != 0.0 && x != 1.0
    ensures r == Err(DivisionByZero) <==> (x == 1.0 && p == 0.0) || (x == 0.0 && p == 1.0)
    ensures r.Ok? && x == 1.0 ==> r.value * p == 1.0
    ensures r.Ok? && x == 0.0 ==> r.value * (1.0 - p) == -1.0
  {
    if x == 1.0 then
      if p == 0.0 then Err(DivisionByZero) else Ok(1.0 / p)
    else if x == 0.0 then
      if 1.0 - p == 0.0 then Err(DivisionByZero) else Ok(-1.0 / (1.0 - p))
    else Err(UndefinedAdjoint)
  }

  /** `ss_beval`: the single adjoint as a one-element list. */
  function SsBeval(x: real, p: real): (r: Outcome<seq<real>>)
    ensures r.Err? <==> Adj(x, p).Err?
    ensures r.Ok? ==> r.value == [Adj(x, p).value]
  {
    match Adj(x, p)
    case Err(e) => Err(e)
    case Ok(a) => Ok([a])
  }

  /** `ss_x_one_beval`: the success rule with no test of the fixture. */
  function SsXOneBeval(p: real): (r: Outcome<seq<real>>)
    ensures r.Err? <==> p == 0.0
    ensures r.Ok? ==> |r.value| == 1 && r.value[0] * p == 1.0
  {
    if p == 0.0 then Err(DivisionByZero) else Ok([1.0 / p])
  }

  /** The fixed-observation variant is the general rule at a success. */
  lemma SsXOneIsSuccessRule(p: real)
    ensures SsXOneBeval(p) == SsBeval(1.0, p)
  {
  }

  /** `vs_beval`: `(sum(x) - n p) / (p (1 - p))`. */
  function VsBeval(xs: seq<real>, p: real): (r: Outcome<seq<real>>)
    ensures r.Err? <==> p == 0.0 || p == 1.0
    ensures r.Ok? ==> |r.value| == 1 &&
                      r.value[0] * (p * (1.0 - p)) == Sum(xs) - |xs| as real * p
  {
    if p * (1.0 - p) == 0.0 then Err(DivisionByZero)
    else
      var d := p * (1.0 - p);
      var v := (Sum(xs) - |xs| as real * p) / d;
      assert v * d == Sum(xs) - |xs| as real * p;
      Ok([v])
  }

  /** `vv_beval`: `adj` over the pairs `zip` forms, which stops at the shorter
      of the two vectors; the first failing pair decides the error. */
  function VvBeval(xs: seq<real>, ps: seq<real>): (r: Outcome<seq<real>>)
    ensures r.Ok? ==> |r.value| == if |xs| <= |ps| then |xs| else |ps|
    ensures r.Ok? ==> forall i :: 0 <= i < |r.value| ==> Adj(xs[i], ps[i]) == Ok(r.value[i])
    ensures r.Err? ==> exists i :: 0 <= i < |xs| && i < |ps| && Adj(xs[i], ps[i]) == Err(r.error)
  {
    if |xs| == 0 || |ps| == 0 then Ok([])
    else
      match Adj(xs[0], ps[0])
      case Err(e) => Err(e)
      case Ok(a) =>
        match VvBeval(xs[1..], ps[1..])
        case Err(e) =>
          ghost var i :| 0 <= i < |xs| - 1 && i < |ps| - 1 && Adj(xs[1..][i], ps[1..][i]) == Err(e);
          assert Adj(xs[i + 1], ps[i + 1]) == Err(e);
          Err(e)
        case Ok(rest) =>
          var res := [a] + rest;
          assert forall i :: 1 <= i < |res| ==> res[i] == rest[i - 1];
          Ok(res)
  }
}
