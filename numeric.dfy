/** Numeric vocabulary shared by the whole model: the IEEE-754 sentinels the
    library produces, the error outcomes of the Python reference oracles, and
    sums and extrema over `seq<real>` (Eigen's `sum`, `minCoeff`, `maxCoeff`).
    Floating point is modelled by exact `real` arithmetic throughout. */
module Numeric {

  /** A floating-point result: a finite value or one of the special values
      the source produces on purpose (`util::neg_inf`, the `+inf` of a
      negative power of zero) or by IEEE arithmetic (`inf - inf`). */
  datatype Ext = Fin(r: real) | PosInf | NegInf | NaN

  /** IEEE addition, as used when an adjoint accumulates an infinite seed. */
  function ExtAdd(a: Ext, b: Ext): (r: Ext)
    ensures a.Fin? && b.Fin? ==> r == Fin(a.r + b.r)
    ensures a.NaN? || b.NaN? ==> r == NaN
    ensures (a == PosInf && b == NegInf) || (a == NegInf && b == PosInf) ==> r == NaN
  {
    match (a, b)
    case (NaN, _) => NaN
    case (_, NaN) => NaN
    case (Fin(x), Fin(y)) => Fin(x + y)
    case (PosInf, NegInf) => NaN
    case (NegInf, PosInf) => NaN
    case (PosInf, _) => PosInf
    case (_, PosInf) => PosInf
    case (NegInf, _) => NegInf
    case (_, NegInf) => NegInf
  }

  /** IEEE addition is commutative, also on the special values. */
  lemma ExtAddCommutes(a: Ext, b: Ext)
    ensures ExtAdd(a, b) == ExtAdd(b, a)
  {
  }

  /** How a Python reference oracle fails instead of returning a gradient:
      a division by zero (ZeroDivisionError on Python floats, inf/nan on numpy
      arrays; neither is a real number) or an adjoint that no branch assigns
      (UnboundLocalError, or a `None` element in the result array), or an
      index past an array's dimensions (IndexError on `shape`). */
  datatype OracleError = DivisionByZero | UndefinedAdjoint | ShapeIndex

  datatype Outcome<T> = Ok(value: T) | Err(error: OracleError)

  /** `np.sum` / Eigen's `sum()`. */
  function Sum(s: seq<real>): real
  {
    if |s| == 0 then 0.0 else s[0] + Sum(s[1..])
  }

  function Sq(a: real): real
  {
    a * a
  }

  /** Sum of squares, Eigen's `squaredNorm()`. */
  function SumSq(s: seq<real>): real
  {
    if |s| == 0 then 0.0 else Sq(s[0]) + SumSq(s[1..])
  }

  function Neg(a: seq<real>): seq<real>
  {
    seq(|a|, i requires 0 <= i < |a| => -a[i])
  }

  function Scale(k: real, a: seq<real>): seq<real>
  {
    seq(|a|, i requires 0 <= i < |a| => k * a[i])
  }

  function Consts(n: nat, k: real): seq<real>
  {
    seq(n, i => k)
  }

  /** numpy's `xs - c`: every entry minus a scalar. */
  function Diffs(xs: seq<real>, c: real): (d: seq<real>)
    ensures |d| == |xs|
  {
    seq(|xs|, i requires 0 <= i < |xs| => xs[i] - c)
  }

  /** numpy's `xs - ys` for two vectors of one length. */
  function PairDiffs(xs: seq<real>, ys: seq<real>): (d: seq<real>)
    requires |xs| == |ys|
    ensures |d| == |xs|
  {
    seq(|xs|, i requires 0 <= i < |xs| => xs[i] - ys[i])
  }

  lemma {:induction false} SumAppend(a: seq<real>, b: seq<real>)
    ensures Sum(a + b) == Sum(a) + Sum(b)
  {
    if |a| > 0 {
      assert (a + b)[1..] == a[1..] + b;
      SumAppend(a[1..], b);
    } else {
      assert a + b == b;
    }
  }

  lemma {:induction false} SumPointwiseAdd(a: seq<real>, b: seq<real>, c: seq<real>)
    requires |a| == |b| == |c|
    requires forall i :: 0 <= i < |c| ==> c[i] == a[i] + b[i]
    ensures Sum(c) == Sum(a) + Sum(b)
  {
    if |c| > 0 {
      SumPointwiseAdd(a[1..], b[1..], c[1..]);
    }
  }

  lemma {:induction false} SumPointwiseScale(k: real, a: seq<real>, b: seq<real>)
    requires |a| == |b|
    requires forall i :: 0 <= i < |b| ==> b[i] == k * a[i]
    ensures Sum(b) == k * Sum(a)
  {
    if |b| > 0 {
      SumPointwiseScale(k, a[1..], b[1..]);
    }
  }

  lemma {:induction false} SumPointwiseEq(a: seq<real>, b: seq<real>)
    requires |a| == |b|
    requires forall i :: 0 <= i < |b| ==> b[i] == a[i]
    ensures Sum(b) == Sum(a)
  {
    assert a == b;
  }

  lemma {:induction false} SumOfConsts(n: nat, k: real)
    ensures Sum(Consts(n, k)) == n as real * k
  {
    if n > 0 {
      assert Consts(n, k)[1..] == Consts(n - 1, k);
      SumOfConsts(n - 1, k);
    }
  }

  lemma SumNeg(a: seq<real>)
    ensures Sum(Neg(a)) == -Sum(a)
  {
    var b := Neg(a);
    forall i | 0 <= i < |b|
      ensures b[i] == -1.0 * a[i]
    {
    }
    SumPointwiseScale(-1.0, a, b);
  }

  lemma SumScale(k: real, a: seq<real>)
    ensures Sum(Scale(k, a)) == k * Sum(a)
  {
    SumPointwiseScale(k, a, Scale(k, a));
  }

  lemma {:induction false} SumSqIsSum(a: seq<real>, sq: seq<real>)
    requires |a| == |sq|
    requires forall i :: 0 <= i < |a| ==> sq[i] == Sq(a[i])
    ensures SumSq(a) == Sum(sq)
  {
    if |a| > 0 {
      SumSqIsSum(a[1..], sq[1..]);
    }
  }

  /** Entrywise sums of three sequences sum to the sum of their sums. */
  lemma SumOfParts(t: seq<real>, a: seq<real>, b: seq<real>, c: seq<real>)
    requires |t| == |a| == |b| == |c|
    requires forall i :: 0 <= i < |t| ==> t[i] == a[i] + b[i] + c[i]
    ensures Sum(t) == Sum(a) + Sum(b) + Sum(c)
  {
    var ab := seq(|t|, i requires 0 <= i < |t| => a[i] + b[i]);
    SumPointwiseAdd(a, b, ab);
    SumPointwiseAdd(ab, c, t);
  }

  /** Every entry is non-zero: what dividing by each entry requires. */
  predicate NoZero(ss: seq<real>)
  {
    forall i :: 0 <= i < |ss| ==> ss[i] != 0.0
  }

  /** Dividing twice divides by the product. */
  lemma DivDiv(d: real, a: real, b: real)
    requires a != 0.0 && b != 0.0
    ensures a * b != 0.0 && (d / a) / b == d / (a * b)
  {
  }

  /** A square is positive away from zero. */
  lemma SqPositive(a: real)
    requires a != 0.0
    ensures Sq(a) > 0.0
  {
    var b := if a < 0.0 then -a else a;
    calc {
      Sq(a);
      b * b;
    >
      0.0 * b;
      0.0;
    }
  }

  lemma {:induction false} SumSqNonNegative(z: seq<real>)
    ensures SumSq(z) >= 0.0
  {
    if |z| > 0 {
      SumSqNonNegative(z[1..]);
      if z[0] != 0.0 {
        SqPositive(z[0]);
      }
    }
  }

  lemma {:induction false} SumSqPositive(z: seq<real>, i: nat)
    requires i < |z| && z[i] != 0.0
    ensures SumSq(z) > 0.0
  {
    if i == 0 {
      SqPositive(z[0]);
      SumSqNonNegative(z[1..]);
    } else {
      if z[0] != 0.0 {
        SqPositive(z[0]);
      }
      SumSqPositive(z[1..], i - 1);
    }
  }

  lemma {:induction false} SumSqOfZeros(z: seq<real>)
    requires forall i :: 0 <= i < |z| ==> z[i] == 0.0
    ensures SumSq(z) == 0.0
  {
    if |z| > 0 {
      SumSqOfZeros(z[1..]);
      assert Sq(z[0]) == 0.0 * 0.0;
    }
  }

  /** A sum of squares is never negative, and is zero exactly when every
      term is. */
  lemma SumSqZero(z: seq<real>)
    ensures SumSq(z) >= 0.0
    ensures SumSq(z) == 0.0 <==> forall i :: 0 <= i < |z| ==> z[i] == 0.0
  {
    SumSqNonNegative(z);
    if exists i :: 0 <= i < |z| && z[i] != 0.0 {
      var i :| 0 <= i < |z| && z[i] != 0.0;
      SumSqPositive(z, i);
    } else {
      SumSqOfZeros(z);
    }
  }

  /** Eigen's `minCoeff()`; Eigen asserts the vector is not empty. */
  function MinCoeff(s: seq<real>): (m: real)
    requires |s| > 0
    ensures m in s
    ensures forall i :: 0 <= i < |s| ==> m <= s[i]
  {
    if |s| == 1 then s[0]
    else
      var rest := MinCoeff(s[1..]);
      if s[0] <= rest then s[0] else rest
  }

  /** Eigen's `maxCoeff()`; Eigen asserts the vector is not empty. */
  function MaxCoeff(s: seq<real>): (m: real)
    requires |s| > 0
    ensures m in s
    ensures forall i :: 0 <= i < |s| ==> s[i] <= m
  {
    if |s| == 1 then s[0]
    else
      var rest := MaxCoeff(s[1..]);
      if rest <= s[0] then s[0] else rest
  }

  /** A strict lower bound on the minimum is a strict lower bound on every
      element, and conversely. */
  lemma MinCoeffBound(lo: real, s: seq<real>)
    requires |s| > 0
    ensures lo < MinCoeff(s) <==> forall i :: 0 <= i < |s| ==> lo < s[i]
  {
    var m := MinCoeff(s);
    var k :| 0 <= k < |s| && s[k] == m;
  }

  lemma MaxCoeffBound(hi: real, s: seq<real>)
    requires |s| > 0
    ensures MaxCoeff(s) < hi <==> forall i :: 0 <= i < |s| ==> s[i] < hi
  {
    var m := MaxCoeff(s);
    var k :| 0 <= k < |s| && s[k] == m;
  }
}
