module NormalForms {
  import opened Numeric

  /** `(a - b)^2 = a^2 - 2 a b + b^2`. */
  lemma SqOfDiff(a: real, b: real)
    ensures Sq(a - b) == Sq(a) - 2.0 * a * b + Sq(b)
  {
  }

  /** `(a / c)(b / e) = (a b) / (c e)`. */
  lemma QuotientProduct(a: real, b: real, c: real, e: real)
    requires c != 0.0 && e != 0.0
    ensures c * e != 0.0 && (a / c) * (b / e) == (a * b) / (c * e)
  {
    DivDiv(a * b, c, e);
  }

  lemma SqOfQuotient(d: real, s: real)
    requires s != 0.0
    ensures s * s != 0.0 && Sq(d / s) == Sq(d) / (s * s)
  {
    QuotientProduct(d, d, s, s);
  }

  /** `a / (s s)`: an entry divided by the square of its sigma. */
  function OverSq(a: real, s: real): real
    requires s != 0.0
  {
    a / (s * s)
  }

  /** Shared sigma: `||d / s||^2 = ||d||^2 / s^2`. */
  lemma {:induction false} SumSqOverShared(d: seq<real>, q: seq<real>, s: real)
    requires s != 0.0 && |q| == |d|
    requires forall i :: 0 <= i < |d| ==> q[i] == d[i] / s
    ensures SumSq(q) == OverSq(SumSq(d), s)
  {
    DivDiv(1.0, s, s);
    if |d| > 0 {
      SumSqOverShared(d[1..], q[1..], s);
      SqOfQuotient(d[0], s);
      AddOver(Sq(d[0]), SumSq(d[1..]), s * s);
    }
  }

  lemma AddOver(a: real, b: real, p: real)
    requires p != 0.0
    ensures a / p + b / p == (a + b) / p
  {
  }

  /** Observation by observation, the expanded square the constant-operand
      case evaluates is the square of the standardised observation. */
  lemma ObsExpanded(x: real, m: real, s: real)
    requires s != 0.0
    ensures Sq(x / s) - 2.0 * m * OverSq(x, s) + m * m * Sq(1.0 / s) == Sq((x - m) / s)
  {
    var u, v := x / s, 1.0 / s;
    QuotientProduct(x, 1.0, s, s);
    assert OverSq(x, s) == u * v;
    assert (x - m) / s == u - m * v;
    SqOfDiff(u, m * v);
    assert Sq(m * v) == m * m * Sq(v);
  }

  /** `len (-c) = -(n c)` for `n = len`. */
  lemma NegProduct(n: real, len: real, c: real)
    requires n == len
    ensures len * -c == -(n * c)
  {
  }

  /** `sum(x - c) = sum(x) - n c`. */
  lemma SumDiffs(xs: seq<real>, c: real, n: real)
    requires n == |xs| as real
    ensures Sum(Diffs(xs, c)) == Sum(xs) - n * c
  {
    var k := Consts(|xs|, -c);
    SumPointwiseAdd(xs, k, Diffs(xs, c));
    SumOfConsts(|xs|, -c);
    NegProduct(n, |xs| as real, c);
  }


  /** Shifting every entry by `c`: `||e - c||^2 = ||e||^2 - 2 c sum(e) + n c^2`. */
  lemma {:induction false} SumSqShift(e: seq<real>, c: real)
    ensures SumSq(Diffs(e, c)) == SumSq(e) - 2.0 * c * Sum(e) + |e| as real * Sq(c)
  {
    if |e| > 0 {
      SumSqShift(e[1..], c);
      assert Diffs(e, c)[1..] == Diffs(e[1..], c);
      SqOfDiff(e[0], c);
    }
  }

  /** Eigen's `mean()` of a non-empty vector. */
  function Mean(xs: seq<real>): real
    requires |xs| > 0
  {
    Sum(xs) / |xs| as real
  }

  /** About any point `xbar` the entries sum to zero around,
      `||x - xbar||^2 + n (m - xbar)^2 = ||x - m||^2`. */
  lemma ShiftedSpread(xs: seq<real>, xbar: real, m: real, n: real, c: real)
    requires n == |xs| as real && Sum(Diffs(xs, xbar)) == 0.0 && c == m - xbar
    ensures SumSq(Diffs(xs, xbar)) + n * Sq(c) == SumSq(Diffs(xs, m))
  {
    var e := Diffs(xs, xbar);
    ShiftTwice(xs, xbar, m, c);
    SumSqShift(e, c);
    DropCentredSum(SumSq(Diffs(e, c)), SumSq(Diffs(xs, m)), SumSq(e), c, n, |e| as real, Sum(e));
  }

  /** Shifting by `xbar` and then by `m - xbar` shifts by `m`. */
  lemma ShiftTwice(xs: seq<real>, xbar: real, m: real, c: real)
    requires c == m - xbar
    ensures SumSq(Diffs(Diffs(xs, xbar), c)) == SumSq(Diffs(xs, m))
  {
    assert Diffs(Diffs(xs, xbar), c) == Diffs(xs, m);
  }

  /** The observations less their mean sum to zero. */
  lemma CentredSumZero(xs: seq<real>, n: real)
    requires |xs| > 0 && n == |xs| as real
    ensures Sum(Diffs(xs, Mean(xs))) == 0.0
  {
    SumDiffs(xs, Mean(xs), n);
    assert n * Mean(xs) == Sum(xs);
  }

  /** `||e - c||^2 = ||e||^2 + n c^2` once `sum(e) = 0`. */
  lemma DropCentredSum(shifted: real, target: real, spread: real, c: real, n: real, len: real, total: real)
    requires shifted == target && len == n && total == 0.0
    requires shifted == spread - 2.0 * c * total + len * Sq(c)
    ensures spread + n * Sq(c) == target
  {
  }

  /** About any point `xbar` the entries sum to zero around,
      `n (xbar - m) = sum(x - m)`. */
  lemma CentredMeanSum(xs: seq<real>, xbar: real, m: real, n: real)
    requires n == |xs| as real && Sum(Diffs(xs, xbar)) == 0.0
    ensures n * (xbar - m) == Sum(Diffs(xs, m))
  {
    SumDiffs(xs, xbar, n);
    SumDiffs(xs, m, n);
  }

  /** `x_i / s_i`: each observation over its sigma. */
  function Ratios(xs: seq<real>, ss: seq<real>): (r: seq<real>)
    requires |xs| == |ss| && NoZero(ss)
    ensures |r| == |xs|
  {
    seq(|xs|, i requires 0 <= i < |xs| => xs[i] / ss[i])
  }

  /** `x_i / s_i^2`: each observation over its sigma squared. */
  function Weights(xs: seq<real>, ss: seq<real>): (r: seq<real>)
    requires |xs| == |ss| && NoZero(ss)
    ensures |r| == |xs|
  {
    seq(|xs|, i requires 0 <= i < |xs| => OverSq(xs[i], ss[i]))
  }

  /** `1 / s_i`: the reciprocal of each sigma. */
  function Recips(ss: seq<real>): (r: seq<real>)
    requires NoZero(ss)
    ensures |r| == |ss|
  {
    seq(|ss|, i requires 0 <= i < |ss| => 1.0 / ss[i])
  }

  /** `a_i^2`: the square of each entry. */
  function Squares(a: seq<real>): (r: seq<real>)
    ensures |r| == |a|
  {
    seq(|a|, i requires 0 <= i < |a| => Sq(a[i]))
  }

  /** `||x / s||^2`, cached when `x` and `sigma` are constant. */
  function SqTerm(xs: seq<real>, ss: seq<real>): real
    requires |xs| == |ss| && NoZero(ss)
  {
    SumSq(Ratios(xs, ss))
  }

  /** `sum(x / (s s))`, cached when `x` and `sigma` are constant. */
  function LinTerm(xs: seq<real>, ss: seq<real>): real
    requires |xs| == |ss| && NoZero(ss)
  {
    Sum(Weights(xs, ss))
  }

  /** `||1 / s||^2`, cached when `sigma` is constant. */
  function ConstTerm(ss: seq<real>): real
    requires NoZero(ss)
  {
    SumSq(Recips(ss))
  }

  /** The standardised observations against a scalar mean. */
  function Standardised(xs: seq<real>, m: real, ss: seq<real>): (z: seq<real>)
    requires |xs| == |ss| && NoZero(ss)
    ensures |z| == |xs|
  {
    seq(|xs|, i requires 0 <= i < |xs| => (xs[i] - m) / ss[i])
  }

  /** `||a||^2` is the sum of the squares. */
  lemma SumSqSquares(a: seq<real>)
    ensures SumSq(a) == Sum(Squares(a))
  {
    SumSqIsSum(a, Squares(a));
  }

  /** Entry by entry, the square of a standardised observation is the
      expanded square of the cached terms' entries. */
  lemma ExpandedEntries(xs: seq<real>, m: real, ss: seq<real>)
    requires |xs| == |ss| && NoZero(ss)
    ensures Sum(Squares(Standardised(xs, m, ss))) ==
            Sum(Squares(Ratios(xs, ss))) + Sum(Scale(-2.0 * m, Weights(xs, ss))) + Sum(Scale(m * m, Squares(Recips(ss))))
  {
    var t, a := Squares(Standardised(xs, m, ss)), Squares(Ratios(xs, ss));
    var b, c := Scale(-2.0 * m, Weights(xs, ss)), Scale(m * m, Squares(Recips(ss)));
    forall i | 0 <= i < |xs|
      ensures t[i] == a[i] + b[i] + c[i]
    {
      ObsExpanded(xs[i], m, ss[i]);
    }
    SumOfParts(t, a, b, c);
  }

  /** The sum of squares of the standardised observations in terms of the
      cached square term and the scaled weights and squared reciprocals. */
  lemma ExpandedSplit(xs: seq<real>, m: real, ss: seq<real>)
    requires |xs| == |ss| && NoZero(ss)
    ensures SumSq(Standardised(xs, m, ss)) ==
            SqTerm(xs, ss) + Sum(Scale(-2.0 * m, Weights(xs, ss))) + Sum(Scale(m * m, Squares(Recips(ss))))
  {
    ExpandedEntries(xs, m, ss);
    SumSqSquares(Standardised(xs, m, ss));
    SumSqSquares(Ratios(xs, ss));
  }

  /** `sum(k w) = k lin`. */
  lemma ScaledWeights(xs: seq<real>, k: real, ss: seq<real>)
    requires |xs| == |ss| && NoZero(ss)
    ensures Sum(Scale(k, Weights(xs, ss))) == k * LinTerm(xs, ss)
  {
    SumScale(k, Weights(xs, ss));
  }

  /** `sum(k / s^2) = k const`. */
  lemma ScaledRecips(k: real, ss: seq<real>)
    requires NoZero(ss)
    ensures Sum(Scale(k, Squares(Recips(ss)))) == k * ConstTerm(ss)
  {
    SumSqSquares(Recips(ss));
    SumScale(k, Squares(Recips(ss)));
  }

  /** The three cached terms give the sum of squares at any mean `m`:
      `sq - 2 m lin + m^2 const = ||(x - m) / s||^2`. */
  lemma ExpandedSquares(xs: seq<real>, m: real, ss: seq<real>)
    requires |xs| == |ss| && NoZero(ss)
    ensures SqTerm(xs, ss) - 2.0 * m * LinTerm(xs, ss) + m * m * ConstTerm(ss) == SumSq(Standardised(xs, m, ss))
  {
    ExpandedSplit(xs, m, ss);
    ScaledWeights(xs, -2.0 * m, ss);
    ScaledRecips(m * m, ss);
  }

  /** Observation by observation, the constant-operand mean adjoint. */
  lemma ObsLinMinusConst(x: real, m: real, s: real)
    requires s != 0.0
    ensures OverSq(x, s) - m * Sq(1.0 / s) == OverSq(x - m, s)
  {
    QuotientProduct(1.0, 1.0, s, s);
    QuotientProduct(x, 1.0, s, s);
  }

  /** Entry by entry, the weighted deviations are the cached weights less
      `m` times the squared reciprocals. */
  lemma LinMinusConstEntries(xs: seq<real>, m: real, ss: seq<real>)
    requires |xs| == |ss| && NoZero(ss)
    ensures Sum(Weights(Diffs(xs, m), ss)) == Sum(Weights(xs, ss)) + Sum(Scale(-m, Squares(Recips(ss))))
  {
    var l, c, t := Weights(xs, ss), Scale(-m, Squares(Recips(ss))), Weights(Diffs(xs, m), ss);
    forall i | 0 <= i < |xs|
      ensures t[i] == l[i] + c[i]
    {
      ObsLinMinusConst(xs[i], m, ss[i]);
    }
    SumPointwiseAdd(l, c, t);
  }

  /** The cached terms give the mean adjoint at any mean `m`:
      `lin - m const = sum((x - m) / s^2)`. */
  lemma LinMinusConst(xs: seq<real>, m: real, ss: seq<real>)
    requires |xs| == |ss| && NoZero(ss)
    ensures LinTerm(xs, ss) - m * ConstTerm(ss) == Sum(Weights(Diffs(xs, m), ss))
  {
    LinMinusConstEntries(xs, m, ss);
    ScaledRecips(-m, ss);
  }
}
