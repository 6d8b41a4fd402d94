/** `BernoulliAdjLogPDFNode`: the Bernoulli log-mass of observations `x`
    given success probabilities `p`, no constant omitted. Cases by operand
    shape: ss, vs, vv (`x`, then `p`). Forward evaluation clips `p` to
    `[0, 1]`; only `p` receives an adjoint. */
module Bernoulli {
  import opened Numeric
  import opened StatArgs
  import BernoulliRef

  predicate Shapes(x: Arg, p: Arg)
  {
    if x.Scalar? then p.Scalar? else Conforms(p, |x.xs|)
  }

  /** Every observation is a failure (0) or a success (1). */
  predicate ZeroOne(x: Arg)
  {
    forall i :: 0 <= i < Size(x) ==> At(x, i) == 0.0 || At(x, i) == 1.0
  }

  /** Every success probability lies in the open interval `(0, 1)`. */
  predicate PInRange(p: Arg)
  {
    forall i :: 0 <= i < Size(p) ==> 0.0 < At(p, i) < 1.0
  }

  /** The log-mass of one observation with `p` clipped to `[0, 1]`: a
      probability at or below 0 makes only a failure possible, one at or
      above 1 only a success, and an observation outside `{0, 1}` is
      impossible. */
  function ObsLogPmf(log: real -> real, x: real, p: real): (r: Ext)
    ensures r.Fin? || r == NegInf
    ensures r.Fin? <==> (x == 0.0 && p < 1.0) || (x == 1.0 && p > 0.0)
  {
    if x != 0.0 && x != 1.0 then NegInf
    else if p <= 0.0 then (if x == 0.0 then Fin(0.0) else NegInf)
    else if p >= 1.0 then (if x == 1.0 then Fin(0.0) else NegInf)
    else if x == 1.0 then Fin(log(p)) else Fin(log(1.0 - p))
  }

  /** The finite parts of a sequence of values, 0 standing for the rest. */
  function FinParts(s: seq<Ext>): (f: seq<real>)
    ensures |f| == |s|
  {
    seq(|s|, i requires 0 <= i < |s| => if s[i].Fin? then s[i].r else 0.0)
  }

  /** IEEE summation of values that are finite or `-inf`. */
  function {:induction false} ExtTotal(s: seq<Ext>): (r: Ext)
    requires forall i :: 0 <= i < |s| ==> s[i].Fin? || s[i] == NegInf
    ensures r.Fin? || r == NegInf
    ensures r == NegInf <==> exists i :: 0 <= i < |s| && s[i] == NegInf
    ensures r.Fin? ==> r.r == Sum(FinParts(s))
  {
    if |s| == 0 then Fin(0.0)
    else
      var rest := ExtTotal(s[1..]);
      assert FinParts(s)[1..] == FinParts(s[1..]);
      assert forall i :: 0 <= i < |s| - 1 ==> s[1..][i] == s[i + 1];
      ExtAdd(s[0], rest)
  }

  function ObsLogPmfs(log: real -> real, x: Arg, p: Arg): (s: seq<Ext>)
    requires Shapes(x, p)
    ensures |s| == Size(x)
    ensures forall i :: 0 <= i < |s| ==> s[i] == ObsLogPmf(log, At(x, i), At(p, i))
  {
    seq(Size(x), i requires 0 <= i < Size(x) => ObsLogPmf(log, At(x, i), At(p, i)))
  }

  /** The log-mass of all observations: `-inf` as soon as one of them is
      impossible, else the sum of their finite log-masses. */
  function LogPmf(log: real -> real, x: Arg, p: Arg): (r: Ext)
    requires Shapes(x, p)
    ensures r.Fin? || r == NegInf
    ensures r == NegInf <==> exists i :: 0 <= i < Size(x) && ObsLogPmf(log, At(x, i), At(p, i)) == NegInf
  {
    ExtTotal(ObsLogPmfs(log, x, p))
  }

  /** `a` at the successes and `b` at the failures. */
  function Select(xs: seq<real>, a: real, b: real): (s: seq<real>)
    ensures |s| == |xs|
  {
    seq(|xs|, i requires 0 <= i < |xs| => if xs[i] == 1.0 then a else b)
  }

  /** `sum(x) a + (n - sum(x)) b`: `a` for each success and `b` for each
      failure, when the observations are 0/1. */
  function Tally(xs: seq<real>, a: real, b: real): real
  {
    Sum(xs) * a + (|xs| as real - Sum(xs)) * b
  }

  lemma TallyOfSum(xs: seq<real>, s: real, a: real, b: real)
    requires s == Sum(xs)
    ensures Tally(xs, a, b) == s * a + (|xs| as real - s) * b
  {
  }

  /** Summing a per-success and a per-failure term over 0/1 observations is
      counting the successes. */
  lemma {:induction false} SelectSum(xs: seq<real>, a: real, b: real)
    requires ZeroOne(Vector(xs))
    ensures Sum(Select(xs, a, b)) == Tally(xs, a, b)
  {
    if |xs| > 0 {
      var t := xs[1..];
      assert ZeroOne(Vector(t)) by {
        assert forall i :: 0 <= i < |t| ==> At(Vector(t), i) == At(Vector(xs), i + 1);
      }
      SelectSum(t, a, b);
      assert Select(xs, a, b)[1..] == Select(t, a, b);
      assert At(Vector(xs), 0) == xs[0];
    }
  }

  /** For 0/1 observations the sum is the number of successes: 0 exactly
      when all fail, `n` exactly when all succeed. */
  lemma {:induction false} ZeroOneSum(xs: seq<real>)
    requires ZeroOne(Vector(xs))
    ensures 0.0 <= Sum(xs) <= |xs| as real
    ensures Sum(xs) == 0.0 <==> forall i :: 0 <= i < |xs| ==> xs[i] == 0.0
    ensures Sum(xs) == |xs| as real <==> forall i :: 0 <= i < |xs| ==> xs[i] == 1.0
  {
    if |xs| > 0 {
      var t := xs[1..];
      assert ZeroOne(Vector(t)) by {
        assert forall i :: 0 <= i < |t| ==> At(Vector(t), i) == At(Vector(xs), i + 1);
      }
      ZeroOneSum(t);
      assert At(Vector(xs), 0) == xs[0];
      assert forall i :: 1 <= i < |xs| ==> xs[i] == t[i - 1];
    }
  }

  /** ss: the log-mass is that of the single observation. */
  lemma SsLogPmf(log: real -> real, x: real, p: real)
    ensures LogPmf(log, Scalar(x), Scalar(p)) == ObsLogPmf(log, x, p)
  {
    var s := ObsLogPmfs(log, Scalar(x), Scalar(p));
    assert s[1..] == [];
    assert FinParts(s)[1..] == [];
  }

  /** Observations outside `{0, 1}` make the log-mass `-inf`. */
  lemma NotZeroOneLogPmf(log: real -> real, x: Arg, p: Arg)
    requires Shapes(x, p) && !ZeroOne(x)
    ensures LogPmf(log, x, p) == NegInf
  {
    var i :| 0 <= i < Size(x) && At(x, i) != 0.0 && At(x, i) != 1.0;
    assert ObsLogPmf(log, At(x, i), At(p, i)) == NegInf;
  }

  /** All observations fail exactly when they are 0/1 and sum to 0; all
      succeed exactly when they are 0/1 and sum to `n`. */
  lemma AllSameIffSum(xs: seq<real>)
    ensures (forall i :: 0 <= i < |xs| ==> xs[i] == 0.0) <==> Sum(xs) == 0.0 && ZeroOne(Vector(xs))
    ensures (forall i :: 0 <= i < |xs| ==> xs[i] == 1.0) <==> Sum(xs) == |xs| as real && ZeroOne(Vector(xs))
  {
    var x := Vector(xs);
    if ZeroOne(x) {
      ZeroOneSum(xs);
    } else {
      var i :| 0 <= i < |xs| && At(x, i) != 0.0 && At(x, i) != 1.0;
      assert xs[i] != 0.0 && xs[i] != 1.0;
    }
  }

  /** Observations that are all possible with log-mass 0 have log-mass 0
      together. */
  lemma AllZeroLogPmf(log: real -> real, x: Arg, p: Arg)
    requires Shapes(x, p)
    requires forall i :: 0 <= i < Size(x) ==> ObsLogPmf(log, At(x, i), At(p, i)) == Fin(0.0)
    ensures LogPmf(log, x, p) == Fin(0.0)
  {
    var s := ObsLogPmfs(log, x, p);
    assert FinParts(s) == Consts(|s|, 0.0);
    SumOfConsts(|s|, 0.0);
    assert ExtTotal(s).Fin? by {
      assert forall i :: 0 <= i < |s| ==> s[i] != NegInf;
    }
  }

  /** vs with `p <= 0`: only all-failure data are possible, with log-mass 0. */
  lemma VsLowLogPmf(log: real -> real, xs: seq<real>, p: real)
    requires p <= 0.0
    ensures LogPmf(log, Vector(xs), Scalar(p)) ==
            if Sum(xs) == 0.0 && ZeroOne(Vector(xs)) then Fin(0.0) else NegInf
  {
    var x := Vector(xs);
    AllSameIffSum(xs);
    if Sum(xs) == 0.0 && ZeroOne(x) {
      forall i | 0 <= i < |xs|
        ensures ObsLogPmf(log, At(x, i), At(Scalar(p), i)) == Fin(0.0)
      {
        assert At(x, i) == xs[i] == 0.0;
      }
      AllZeroLogPmf(log, x, Scalar(p));
    } else {
      var i :| 0 <= i < |xs| && xs[i] != 0.0;
      assert ObsLogPmf(log, At(x, i), At(Scalar(p), i)) == NegInf;
    }
  }

  /** vs with `p >= 1`: only all-success data are possible, with log-mass 0. */
  lemma VsHighLogPmf(log: real -> real, xs: seq<real>, p: real)
    requires p >= 1.0
    ensures LogPmf(log, Vector(xs), Scalar(p)) ==
            if Sum(xs) == |xs| as real && ZeroOne(Vector(xs)) then Fin(0.0) else NegInf
  {
    var x := Vector(xs);
    AllSameIffSum(xs);
    if Sum(xs) == |xs| as real && ZeroOne(x) {
      forall i | 0 <= i < |xs|
        ensures ObsLogPmf(log, At(x, i), At(Scalar(p), i)) == Fin(0.0)
      {
        assert At(x, i) == xs[i] == 1.0;
      }
      AllZeroLogPmf(log, x, Scalar(p));
    } else {
      var i :| 0 <= i < |xs| && xs[i] != 1.0;
      assert ObsLogPmf(log, At(x, i), At(Scalar(p), i)) == NegInf;
    }
  }

  /** Values that are all finite total to the sum of their finite parts. */
  lemma AllFiniteTotal(s: seq<Ext>, f: seq<real>)
    requires |s| == |f|
    requires forall i :: 0 <= i < |s| ==> s[i] == Fin(f[i])
    ensures ExtTotal(s) == Fin(Sum(f))
  {
    assert FinParts(s) == f;
  }

  /** Finite values `a` at the successes and `b` at the failures total to
      `sum(x) a + (n - sum(x)) b`. */
  lemma SelectedTotal(s: seq<Ext>, xs: seq<real>, a: real, b: real)
    requires ZeroOne(Vector(xs)) && |s| == |xs|
    requires forall i :: 0 <= i < |s| ==> s[i] == Fin(if xs[i] == 1.0 then a else b)
    ensures ExtTotal(s) == Fin(Tally(xs, a, b))
  {
    AllFiniteTotal(s, Select(xs, a, b));
    SelectSum(xs, a, b);
  }

  /** vs inside the range: successes contribute `log p`, failures
      `log(1 - p)`. */
  lemma VsInRangeLogPmf(log: real -> real, xs: seq<real>, p: real)
    requires 0.0 < p < 1.0 && ZeroOne(Vector(xs))
    ensures LogPmf(log, Vector(xs), Scalar(p)) == Fin(Tally(xs, log(p), log(1.0 - p)))
  {
    var x := Vector(xs);
    var s := ObsLogPmfs(log, x, Scalar(p));
    forall i | 0 <= i < |xs|
      ensures s[i] == Fin(if xs[i] == 1.0 then log(p) else log(1.0 - p))
    {
      assert At(x, i) == xs[i];
    }
    SelectedTotal(s, xs, log(p), log(1.0 - p));
  }

  /** The closed form of the vv case, `log(x p + (1 - x)(1 - p))` per
      observation. */
  function ClosedFormTerms(log: real -> real, xs: seq<real>, ps: seq<real>): (t: seq<real>)
    requires |xs| == |ps|
    ensures |t| == |xs|
  {
    seq(|xs|, i requires 0 <= i < |xs| => log(xs[i] * ps[i] + (1.0 - xs[i]) * (1.0 - ps[i])))
  }

  /** With 0/1 observations and every `p_i` in range the closed form is the
      clipped log-mass. */
  lemma ClosedFormIsLogPmf(log: real -> real, xs: seq<real>, ps: seq<real>)
    requires |xs| == |ps| && ZeroOne(Vector(xs)) && PInRange(Vector(ps))
    ensures LogPmf(log, Vector(xs), Vector(ps)) == Fin(Sum(ClosedFormTerms(log, xs, ps)))
  {
    var x, p := Vector(xs), Vector(ps);
    var s := ObsLogPmfs(log, x, p);
    var t := ClosedFormTerms(log, xs, ps);
    forall i | 0 <= i < |xs|
      ensures s[i] == Fin(t[i])
    {
      assert At(x, i) == xs[i] && At(p, i) == ps[i];
      assert 0.0 < ps[i] < 1.0;
      if xs[i] == 1.0 {
        assert xs[i] * ps[i] + (1.0 - xs[i]) * (1.0 - ps[i]) == ps[i];
      } else {
        assert xs[i] * ps[i] + (1.0 - xs[i]) * (1.0 - ps[i]) == 1.0 - ps[i];
      }
    }
    assert FinParts(s) == t;
  }

  /** The vv forward loop, taken when some `p_i` lies outside `(0, 1)`:
      an impossible observation ends it with `-inf`, an in-range one adds
      its log-mass, a clipped possible one adds nothing. */
  method ClippedLogPmf(log: real -> real, xs: seq<real>, ps: seq<real>) returns (v: Ext)
    requires |xs| == |ps| && ZeroOne(Vector(xs))
    ensures v == LogPmf(log, Vector(xs), Vector(ps))
  {
    ghost var s := ObsLogPmfs(log, Vector(xs), Vector(ps));
    ghost var f := FinParts(s);
    assert forall k :: 0 <= k < |xs| ==> s[k] == ObsLogPmf(log, xs[k], ps[k]);
    var acc := 0.0;
    var i := 0;
    while i < |ps|
      invariant 0 <= i <= |ps|
      invariant forall k :: 0 <= k < i ==> s[k].Fin?
      invariant acc == Sum(f[..i])
    {
      assert At(Vector(xs), i) == xs[i];
      if ps[i] <= 0.0 && xs[i] != 0.0 {
        assert s[i] == NegInf;
        return NegInf;
      } else if ps[i] >= 1.0 && xs[i] != 1.0 {
        assert s[i] == NegInf;
        return NegInf;
      } else if 0.0 < ps[i] < 1.0 {
        acc := acc + (if xs[i] == 1.0 then log(ps[i]) else log(1.0 - ps[i]));
      }
      assert f[..i + 1] == f[..i] + [f[i]];
      SumAppend(f[..i], [f[i]]);
      i := i + 1;
    }
    assert f[..i] == f;
    v := Fin(acc);
  }

  /** Backward evaluation has something to pass on: 0/1 observations, and
      for a scalar `p` one inside `(0, 1)`. */
  predicate Active(x: Arg, p: Arg)
    requires Shapes(x, p)
  {
    ZeroOne(x) && (p.Scalar? ==> 0.0 < p.v < 1.0)
  }

  /** The ss adjoint rule: `-seed/(1-p)` for a failure, `seed/p` otherwise. */
  function ObsSeed(seed: real, x: real, p: real): real
    requires 0.0 < p < 1.0
  {
    if x == 0.0 then (-seed) / (1.0 - p) else seed / p
  }

  /** The vv adjoint of observation `i`: 0 where `p_i` is clipped. */
  function VvObsSeed(seed: real, x: real, p: real): real
  {
    if 0.0 < p < 1.0 then (if x == 1.0 then seed / p else (-seed) / (1.0 - p)) else 0.0
  }

  /** The vs adjoint of `p` for a unit seed: `(sum(x) - n p) / (p (1 - p))`. */
  function VsAdj(xs: seq<real>, p: real): real
    requires 0.0 < p < 1.0
  {
    (Sum(xs) - |xs| as real * p) / (p * (1.0 - p))
  }

  /** The seed backward evaluation passes to `p`. */
  function PSeed(seed: real, x: Arg, p: Arg): (g: Arg)
    requires Shapes(x, p) && Active(x, p)
    ensures SameShape(g, p)
  {
    if x.Scalar? then Scalar(ObsSeed(seed, x.v, p.v))
    else if p.Scalar? then Scalar(seed * VsAdj(x.xs, p.v))
    else Vector(seq(|x.xs|, i requires 0 <= i < |x.xs| => VvObsSeed(seed, x.xs[i], p.xs[i])))
  }

  lemma VsAlgebra(seed: real, xs: seq<real>, p: real)
    requires 0.0 < p < 1.0
    ensures Tally(xs, seed / p, (-seed) / (1.0 - p)) == seed * VsAdj(xs, p)
  {
    var s, n, q := Sum(xs), |xs| as real, 1.0 - p;
    var a, b, c := seed / p, (-seed) / q, (s - n * p) / (p * q);
    assert a * p == seed && b * q == -seed && c * (p * q) == s - n * p;
    var lhs := s * a + (n - s) * b;
    assert lhs * (p * q) == s * (a * p) * q + (n - s) * (b * q) * p;
    assert lhs * (p * q) == seed * (s - n * p);
    assert (seed * c) * (p * q) == seed * (s - n * p);
    assert p * q > 0.0;
    assert lhs == seed * c;
  }

  /** The vs adjoint of `p` is the sum of the ss adjoints of the single
      observations. */
  lemma VsSeedIsSumOfObsSeeds(seed: real, xs: seq<real>, p: real)
    requires 0.0 < p < 1.0 && ZeroOne(Vector(xs))
    ensures PSeed(seed, Vector(xs), Scalar(p)).v ==
            Sum(seq(|xs|, i requires 0 <= i < |xs| => ObsSeed(seed, xs[i], p)))
  {
    var terms := seq(|xs|, i requires 0 <= i < |xs| => ObsSeed(seed, xs[i], p));
    var a, b := seed / p, (-seed) / (1.0 - p);
    assert Sum(terms) == Tally(xs, a, b) by {
      var sel := Select(xs, a, b);
      forall i | 0 <= i < |xs|
        ensures terms[i] == sel[i]
      {
        assert At(Vector(xs), i) == xs[i];
      }
      assert terms == sel;
      SelectSum(xs, a, b);
    }
    VsAlgebra(seed, xs, p);
  }

  /** The vv adjoint of `p_i` is the ss adjoint of observation `i` where
      `p_i` is in range, and 0 where it is clipped. */
  lemma VvSeedIsObsSeed(seed: real, xs: seq<real>, ps: seq<real>)
    requires |xs| == |ps| && ZeroOne(Vector(xs))
    ensures forall i :: 0 <= i < |xs| ==>
              PSeed(seed, Vector(xs), Vector(ps)).xs[i] ==
              if 0.0 < ps[i] < 1.0 then ObsSeed(seed, xs[i], ps[i]) else 0.0
  {
    forall i | 0 <= i < |xs|
      ensures xs[i] == 0.0 || xs[i] == 1.0
    {
      assert At(Vector(xs), i) == xs[i];
    }
  }

  lemma QuotientLinear(s: real, a: real, d: real)
    requires d != 0.0
    ensures s * a / d == s * (1.0 * a / d)
    ensures (-s) / d == s * ((-1.0) / d)
    ensures s / d == s * (1.0 / d)
  {
  }

  lemma SsSeedLinear(seed: real, x: real, p: real)
    requires 0.0 < p < 1.0 && ZeroOne(Scalar(x))
    ensures PSeed(seed, Scalar(x), Scalar(p)) == ScaleArg(seed, PSeed(1.0, Scalar(x), Scalar(p)))
  {
    QuotientLinear(seed, 1.0, p);
    QuotientLinear(seed, 1.0, 1.0 - p);
  }

  lemma VsSeedLinear(seed: real, xs: seq<real>, p: real)
    requires 0.0 < p < 1.0 && ZeroOne(Vector(xs))
    ensures PSeed(seed, Vector(xs), Scalar(p)) == ScaleArg(seed, PSeed(1.0, Vector(xs), Scalar(p)))
  {
    var c := VsAdj(xs, p);
    assert PSeed(1.0, Vector(xs), Scalar(p)) == Scalar(c) by {
      assert 1.0 * c == c;
    }
  }

  lemma VvSeedLinear(seed: real, xs: seq<real>, ps: seq<real>)
    requires |xs| == |ps| && ZeroOne(Vector(xs))
    ensures PSeed(seed, Vector(xs), Vector(ps)) == ScaleArg(seed, PSeed(1.0, Vector(xs), Vector(ps)))
  {
    var a, b := PSeed(seed, Vector(xs), Vector(ps)), PSeed(1.0, Vector(xs), Vector(ps));
    forall i | 0 <= i < |xs|
      ensures a.xs[i] == seed * b.xs[i]
    {
      if 0.0 < ps[i] < 1.0 {
        QuotientLinear(seed, 1.0, ps[i]);
        QuotientLinear(seed, 1.0, 1.0 - ps[i]);
      }
    }
    ArgExt(a, ScaleArg(seed, b));
  }

  /** Backward evaluation is linear in its seed. */
  lemma PSeedLinear(seed: real, x: Arg, p: Arg)
    requires Shapes(x, p) && Active(x, p)
    ensures PSeed(seed, x, p) == ScaleArg(seed, PSeed(1.0, x, p))
  {
    if x.Scalar? {
      SsSeedLinear(seed, x.v, p.v);
    } else if p.Scalar? {
      VsSeedLinear(seed, x.xs, p.v);
    } else {
      VvSeedLinear(seed, x.xs, p.xs);
    }
  }

  /** ss: for a 0/1 observation and `p` in range the node's gradient is the
      oracle's. */
  lemma SsAgreesWithOracle(x: real, p: real)
    requires 0.0 < p < 1.0 && (x == 0.0 || x == 1.0)
    ensures BernoulliRef.SsBeval(x, p) == Ok(Flat(PSeed(1.0, Scalar(x), Scalar(p))))
  {
    assert ZeroOne(Scalar(x)) by {
      assert At(Scalar(x), 0) == x;
    }
  }

  /** ss: where the oracle leaves the adjoint unassigned the node passes
      nothing. */
  lemma SsOracleUndefinedWhereInactive(x: real, p: real)
    requires x != 0.0 && x != 1.0
    ensures BernoulliRef.SsBeval(x, p) == Err(UndefinedAdjoint)
    ensures !Active(Scalar(x), Scalar(p))
  {
    assert At(Scalar(x), 0) == x;
  }

  /** The fixture of `ss_x_one_beval`: `p = 0.0001` gives 10000. */
  lemma SsXOneAtFixture()
    ensures BernoulliRef.SsXOneBeval(0.0001) == Ok([10000.0])
  {
  }

  lemma PositiveProduct(a: real, b: real)
    requires a > 0.0 && b > 0.0
    ensures a * b > 0.0
  {
  }

  /** vs: for 0/1 observations and `p` in range the node's gradient is the
      oracle's. */
  lemma VsAgreesWithOracle(xs: seq<real>, p: real)
    requires 0.0 < p < 1.0 && ZeroOne(Vector(xs))
    ensures BernoulliRef.VsBeval(xs, p) == Ok(Flat(PSeed(1.0, Vector(xs), Scalar(p))))
  {
    var q := VsAdj(xs, p);
    assert BernoulliRef.VsBeval(xs, p) == Ok([q]) by {
      PositiveProduct(p, 1.0 - p);
    }
    assert PSeed(1.0, Vector(xs), Scalar(p)) == Scalar(q) by {
      assert 1.0 * q == q;
    }
  }

  /** vv: for 0/1 observations and every `p_i` in range the node's gradient
      is the oracle's. */
  lemma VvAgreesWithOracle(xs: seq<real>, ps: seq<real>)
    requires |xs| == |ps| && ZeroOne(Vector(xs)) && PInRange(Vector(ps))
    ensures BernoulliRef.VvBeval(xs, ps) == Ok(Flat(PSeed(1.0, Vector(xs), Vector(ps))))
  {
    var g := PSeed(1.0, Vector(xs), Vector(ps)).xs;
    forall i | 0 <= i < |xs|
      ensures BernoulliRef.Adj(xs[i], ps[i]) == Ok(g[i])
    {
      assert At(Vector(xs), i) == xs[i] && At(Vector(ps), i) == ps[i];
    }
    var r := BernoulliRef.VvBeval(xs, ps);
    assert r.Ok?;
    assert r.value == g;
  }

  /** A Bernoulli log-mass node over leaf operands. `log` is the natural
      logarithm; the caches are `log p` and `log(1 - p)` (scalar `p`), whether
      the observations are all 0/1 and their sum (vector `x`), and whether
      every `p_i` is in range (vector `p`). */
  class BernoulliNode {
    const log: real -> real
    var x: Arg
    var p: Arg
    var pAdj: Arg
    var value: Ext
    var logP: real
    var logPDual: real
    var xZeroOne: bool
    var xSum: real
    var pWithinRange: bool

    ghost predicate Valid()
      reads this
    {
      Shapes(x, p) && SameShape(pAdj, p)
    }

    /** `within_range` of the scalar-`p` cases. */
    predicate WithinRange()
      reads this
      requires Valid() && p.Scalar?
    {
      0.0 < p.v && p.v < 1.0
    }

    /** The caches describe the current operands. */
    ghost predicate Evaluated()
      reads this
      requires Valid()
    {
      (p.Scalar? && WithinRange() ==> logP == log(p.v) && logPDual == log(1.0 - p.v)) &&
      (x.Vector? ==> xZeroOne == ZeroOne(x) && xSum == Sum(x.xs)) &&
      (p.Vector? ==> pWithinRange == PInRange(p))
    }

    constructor (log: real -> real, x: Arg, p: Arg)
      requires Shapes(x, p)
      ensures Valid() && this.log == log && this.x == x && this.p == p
      ensures pAdj == ZeroLike(p)
    {
      this.log, this.x, this.p := log, x, p;
      pAdj := ZeroLike(p);
      value, logP, logPDual := Fin(0.0), 0.0, 0.0;
      xZeroOne, xSum, pWithinRange := false, 0.0, false;
    }

    /** `update_cache` and `update_x_cache`: the logarithms only when `p` is
        in range, the observation summaries always. */
    method UpdateCache()
      requires Valid()
      modifies this
      ensures Valid() && Evaluated()
      ensures x == old(x) && p == old(p) && pAdj == old(pAdj) && value == old(value)
    {
      if p.Scalar? && WithinRange() {
        logP, logPDual := log(p.v), log(1.0 - p.v);
      }
      if x.Vector? {
        xZeroOne, xSum := ZeroOne(x), Sum(x.xs);
      }
      if p.Vector? {
        pWithinRange := PInRange(p);
      }
    }

    /** Forward evaluation: the clipped log-mass of the observations. */
    method Feval() returns (v: Ext)
      requires Valid()
      modifies this
      ensures Valid() && Evaluated()
      ensures v == value == LogPmf(log, x, p)
      ensures x == old(x) && p == old(p) && pAdj == old(pAdj)
    {
      UpdateCache();
      if x.Scalar? {
        v := SsFeval();
      } else if p.Scalar? {
        v := VsFeval();
      } else {
        v := VvFeval();
      }
      value := v;
    }

    /** `feval` of case ss, from the cached logarithms. */
    method SsFeval() returns (v: Ext)
      requires Valid() && Evaluated() && x.Scalar?
      ensures v == LogPmf(log, x, p)
    {
      SsLogPmf(log, x.v, p.v);
      if !WithinRange() {
        if p.v <= 0.0 {
          v := if x.v == 0.0 then Fin(0.0) else NegInf;
        } else {
          v := if x.v == 1.0 then Fin(0.0) else NegInf;
        }
      } else if x.v == 0.0 {
        v := Fin(logPDual);
      } else if x.v == 1.0 {
        v := Fin(logP);
      } else {
        v := NegInf;
      }
    }

    /** `feval` of case vs, from the cached sum of the observations. */
    method VsFeval() returns (v: Ext)
      requires Valid() && Evaluated() && x.Vector? && p.Scalar?
      ensures v == LogPmf(log, x, p)
    {
      var n := |x.xs| as real;
      if !WithinRange() {
        if p.v <= 0.0 {
          VsLowLogPmf(log, x.xs, p.v);
          v := if xSum == 0.0 && xZeroOne then Fin(0.0) else NegInf;
        } else {
          VsHighLogPmf(log, x.xs, p.v);
          v := if xSum == n && xZeroOne then Fin(0.0) else NegInf;
        }
      } else if xZeroOne {
        VsInRangeLogPmf(log, x.xs, p.v);
        TallyOfSum(x.xs, xSum, logP, logPDual);
        v := Fin(xSum * logP + (n - xSum) * logPDual);
      } else {
        NotZeroOneLogPmf(log, x, p);
        v := NegInf;
      }
    }

    /** `feval` of case vv: the closed form when every `p_i` is in range,
        else the clipped sum. */
    method VvFeval() returns (v: Ext)
      requires Valid() && Evaluated() && x.Vector? && p.Vector?
      ensures v == LogPmf(log, x, p)
    {
      if xZeroOne {
        if !pWithinRange {
          v := ClippedLogPmf(log, x.xs, p.xs);
        } else {
          ClosedFormIsLogPmf(log, x.xs, p.xs);
          v := Fin(Sum(ClosedFormTerms(log, x.xs, p.xs)));
        }
      } else {
        NotZeroOneLogPmf(log, x, p);
        v := NegInf;
      }
    }

    /** Backward evaluation after forward evaluation: nothing for a zero seed
        or when there is nothing to pass on, else `p` receives its seed. */
    method Beval(seed: real)
      requires Valid() && Evaluated()
      modifies this
      ensures Valid() && Evaluated()
      ensures x == old(x) && p == old(p) && value == old(value)
      ensures seed == 0.0 || !Active(x, p) ==> pAdj == old(pAdj)
      ensures seed != 0.0 && Active(x, p) ==> pAdj == AddArg(old(pAdj), PSeed(seed, x, p))
    {
      if x.Scalar? {
        assert ZeroOne(x) <==> x.v == 0.0 || x.v == 1.0 by {
          assert At(x, 0) == x.v;
        }
        if seed == 0.0 || !WithinRange() || (x.v != 0.0 && x.v != 1.0) {
          return;
        }
        var adj := if x.v == 0.0 then -seed / (1.0 - p.v) else seed / p.v;
        pAdj := AddArg(pAdj, Scalar(adj));
      } else if p.Scalar? {
        if seed == 0.0 || !WithinRange() || !xZeroOne {
          return;
        }
        var adj := (xSum - (|x.xs| as real * p.v)) / (p.v * (1.0 - p.v));
        pAdj := AddArg(pAdj, Scalar(seed * adj));
      } else {
        if seed == 0.0 || !xZeroOne {
          return;
        }
        var xs, ps := x.xs, p.xs;
        var adj := seq(|xs|, i requires 0 <= i < |xs| => VvObsSeed(seed, xs[i], ps[i]));
        pAdj := AddArg(pAdj, Vector(adj));
      }
    }
  }
}
