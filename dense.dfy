/** Dense matrices (Eigen's `MatrixXd`, numpy's 2-d arrays) as lists of rows,
    with the few operations the multivariate normal log-density needs. */
module Dense {
  import opened Numeric

  type Matrix = seq<seq<real>>

  /** `n` rows of `n` entries. */
  predicate Square(m: Matrix, n: nat)
  {
    |m| == n && forall i :: 0 <= i < n ==> |m[i]| == n
  }

  predicate Symmetric(m: Matrix, n: nat)
    requires Square(m, n)
  {
    forall i, j :: 0 <= i < n && 0 <= j < n ==> m[i][j] == m[j][i]
  }

  /** The inner product `a^T b`. */
  function Dot(a: seq<real>, b: seq<real>): real
    requires |a| == |b|
  {
    if |a| == 0 then 0.0 else a[0] * b[0] + Dot(a[1..], b[1..])
  }

  /** The entrywise products `a_i b_i`. */
  function Products(a: seq<real>, b: seq<real>): (p: seq<real>)
    requires |a| == |b|
    ensures |p| == |a|
  {
    seq(|a|, i requires 0 <= i < |a| => a[i] * b[i])
  }

  /** `a . b` is the sum of the entrywise products. */
  lemma {:induction false} DotIsSum(a: seq<real>, b: seq<real>)
    requires |a| == |b|
    ensures Dot(a, b) == Sum(Products(a, b))
  {
    if |a| > 0 {
      DotIsSum(a[1..], b[1..]);
      var p, q := Products(a, b), Products(a[1..], b[1..]);
      forall i | 0 <= i < |q|
        ensures p[1..][i] == q[i]
      {
        assert a[1..][i] == a[i + 1] && b[1..][i] == b[i + 1];
      }
      assert p[1..] == q;
    }
  }

  /** The product `m v` of a square matrix and a vector: a reference
      definition, stated entry by entry. */
  function MatVec(m: Matrix, v: seq<real>): (r: seq<real>)
    requires Square(m, |v|)
    ensures |r| == |v|
    ensures forall i :: 0 <= i < |v| ==> r[i] == Dot(m[i], v)
  {
    seq(|v|, i requires 0 <= i < |v| => Dot(m[i], v))
  }

  /** The outer product `a a^T`: a reference definition, stated entry by
      entry. */
  function Outer(a: seq<real>): (m: Matrix)
    ensures Square(m, |a|)
    ensures forall i, j :: 0 <= i < |a| && 0 <= j < |a| ==> m[i][j] == a[i] * a[j]
  {
    seq(|a|, i requires 0 <= i < |a| => seq(|a|, j requires 0 <= j < |a| => a[i] * a[j]))
  }

  /** `k (a - b)`, entrywise. */
  function ScaledDiff(k: real, a: Matrix, b: Matrix, n: nat): (m: Matrix)
    requires Square(a, n) && Square(b, n)
    ensures Square(m, n)
    ensures forall i, j :: 0 <= i < n && 0 <= j < n ==> m[i][j] == k * (a[i][j] - b[i][j])
  {
    seq(n, i requires 0 <= i < n => seq(n, j requires 0 <= j < n => k * (a[i][j] - b[i][j])))
  }

  /** `a + b`, entrywise: how a matrix adjoint accumulates its seed. */
  function AddMat(a: Matrix, b: Matrix, n: nat): (m: Matrix)
    requires Square(a, n) && Square(b, n)
    ensures Square(m, n)
    ensures forall i, j :: 0 <= i < n && 0 <= j < n ==> m[i][j] == a[i][j] + b[i][j]
  {
    seq(n, i requires 0 <= i < n => seq(n, j requires 0 <= j < n => a[i][j] + b[i][j]))
  }

  function ZeroMat(n: nat): (m: Matrix)
    ensures Square(m, n)
    ensures forall i, j :: 0 <= i < n && 0 <= j < n ==> m[i][j] == 0.0
  {
    seq(n, i => Consts(n, 0.0))
  }

  /** numpy's `flatten()`: the rows one after the other. */
  function Flatten(m: Matrix): (f: seq<real>)
  {
    if |m| == 0 then [] else m[0] + Flatten(m[1..])
  }

  /** A flattened `n x n` matrix has `n * n` entries, entry `(i, j)` at
      `i n + j`. */
  lemma {:induction false} FlattenAt(m: Matrix, n: nat, i: nat, j: nat)
    requires Square(m, n) && i < n && j < n
    ensures |Flatten(m)| == |m| * n
    ensures i * n + j < |Flatten(m)| && Flatten(m)[i * n + j] == m[i][j]
  {
    FlattenLength(m, n);
    if i > 0 {
      FlattenAtRest(m, n, i, j);
    }
  }

  lemma {:induction false} FlattenLength(m: Matrix, n: nat)
    requires forall i :: 0 <= i < |m| ==> |m[i]| == n
    ensures |Flatten(m)| == |m| * n
  {
    if |m| > 0 {
      FlattenLength(m[1..], n);
    }
  }

  lemma {:induction false} FlattenAtRest(m: Matrix, n: nat, i: nat, j: nat)
    requires forall r :: 0 <= r < |m| ==> |m[r]| == n
    requires i < |m| && j < n
    ensures |Flatten(m)| == |m| * n
    ensures i * n + j < |Flatten(m)| && Flatten(m)[i * n + j] == m[i][j]
  {
    FlattenLength(m, n);
    if i > 0 {
      FlattenAtRest(m[1..], n, i - 1, j);
      assert (i - 1) * n + j + n == i * n + j;
    }
  }

  /** The outer product of a vector with itself is symmetric. */
  lemma OuterSymmetric(a: seq<real>)
    ensures Symmetric(Outer(a), |a|)
  {
  }

  /** `k (a - b)` is symmetric when `a` and `b` are. */
  lemma ScaledDiffSymmetric(k: real, a: Matrix, b: Matrix, n: nat)
    requires Square(a, n) && Square(b, n) && Symmetric(a, n) && Symmetric(b, n)
    ensures Symmetric(ScaledDiff(k, a, b, n), n)
  {
  }

  /** `(-a) (-a)^T = a a^T`. */
  lemma OuterOfNeg(a: seq<real>)
    ensures Outer(Neg(a)) == Outer(a)
  {
    var p, q := Outer(Neg(a)), Outer(a);
    forall i | 0 <= i < |a|
      ensures p[i] == q[i]
    {
      forall j | 0 <= j < |a|
        ensures p[i][j] == q[i][j]
      {
        assert p[i][j] == (-a[i]) * (-a[j]);
      }
    }
  }

  // Bilinearity and symmetry of `u^T A w`.

  /** `a + k b`, entrywise: a step of length `k` along `b`. */
  function AddScaled(a: seq<real>, k: real, b: seq<real>): (c: seq<real>)
    requires |a| == |b|
    ensures |c| == |a|
  {
    seq(|a|, i requires 0 <= i < |a| => a[i] + k * b[i])
  }

  lemma {:induction false} DotComm(a: seq<real>, b: seq<real>)
    requires |a| == |b|
    ensures Dot(a, b) == Dot(b, a)
  {
    if |a| > 0 {
      DotComm(a[1..], b[1..]);
    }
  }

  /** The inner product is linear in its first argument. */
  lemma {:induction false} DotAddScaled(a: seq<real>, k: real, b: seq<real>, c: seq<real>)
    requires |a| == |b| == |c|
    ensures Dot(AddScaled(a, k, b), c) == Dot(a, c) + k * Dot(b, c)
  {
    if |a| > 0 {
      AddScaledTail(a, k, b);
      DotAddScaled(a[1..], k, b[1..], c[1..]);
    }
  }

  /** ... and in its second. */
  lemma {:induction false} DotAddScaledRight(c: seq<real>, a: seq<real>, k: real, b: seq<real>)
    requires |a| == |b| == |c|
    ensures Dot(c, AddScaled(a, k, b)) == Dot(c, a) + k * Dot(c, b)
  {
    if |a| > 0 {
      AddScaledTail(a, k, b);
      DotAddScaledRight(c[1..], a[1..], k, b[1..]);
    }
  }

  /** A step along `b` starts with `a_0 + k b_0` and goes on with the tails. */
  lemma AddScaledTail(a: seq<real>, k: real, b: seq<real>)
    requires |a| == |b| > 0
    ensures AddScaled(a, k, b)[0] == a[0] + k * b[0]
    ensures AddScaled(a, k, b)[1..] == AddScaled(a[1..], k, b[1..])
  {
    var l, r := AddScaled(a, k, b)[1..], AddScaled(a[1..], k, b[1..]);
    forall i | 0 <= i < |a| - 1
      ensures l[i] == r[i]
    {
      assert l[i] == AddScaled(a, k, b)[i + 1];
    }
    assert l == r;
  }

  /** The matrix-vector product is linear in the vector. */
  lemma MatVecAddScaled(m: Matrix, a: seq<real>, k: real, b: seq<real>)
    requires |a| == |b| && Square(m, |a|)
    ensures MatVec(m, AddScaled(a, k, b)) == AddScaled(MatVec(m, a), k, MatVec(m, b))
  {
    var l, r := MatVec(m, AddScaled(a, k, b)), AddScaled(MatVec(m, a), k, MatVec(m, b));
    forall i | 0 <= i < |a|
      ensures l[i] == r[i]
    {
      DotAddScaledRight(m[i], a, k, b);
    }
    assert l == r;
  }

  /** The lower-right `(n-1) x (n-1)` block: `m` without its first row and
      column. */
  function Minor(m: Matrix, n: nat): (b: Matrix)
    requires n > 0 && Square(m, n)
    ensures Square(b, n - 1)
  {
    seq(n - 1, i requires 0 <= i < n - 1 => m[i + 1][1..])
  }

  /** The first entry of `m w`: the corner times `w_0` plus the first row's
      tail against `w'`. */
  lemma MatVecHead(m: Matrix, w: seq<real>)
    requires |w| > 0 && Square(m, |w|)
    ensures MatVec(m, w)[0] == m[0][0] * w[0] + Dot(m[0][1..], w[1..])
  {
  }

  /** `u^T m w` with its first term split off: the first entry of `m w` is
      the first row against `w`. */
  lemma PeelHead(m: Matrix, u: seq<real>, w: seq<real>)
    requires |u| == |w| > 0 && Square(m, |u|)
    ensures Dot(u, MatVec(m, w)) ==
            u[0] * (m[0][0] * w[0] + Dot(m[0][1..], w[1..])) + Dot(u[1..], MatVec(m, w)[1..])
  {
    MatVecHead(m, w);
  }

  /** The rest of `m w` past its first entry, for a symmetric `m`: the
      minor against `w'`, plus `w_0` times the first row's tail. */
  lemma MatVecPeel(m: Matrix, w: seq<real>)
    requires |w| > 0 && Square(m, |w|) && Symmetric(m, |w|)
    ensures MatVec(m, w)[0] == m[0][0] * w[0] + Dot(m[0][1..], w[1..])
    ensures MatVec(m, w)[1..] == AddScaled(MatVec(Minor(m, |w|), w[1..]), w[0], m[0][1..])
  {
    var n := |w|;
    var l, r := MatVec(m, w)[1..], AddScaled(MatVec(Minor(m, n), w[1..]), w[0], m[0][1..]);
    forall i | 0 <= i < n - 1
      ensures l[i] == r[i]
    {
      assert m[i + 1][1..] == Minor(m, n)[i];
      assert m[i + 1][0] == m[0][1..][i];
    }
    assert l == r;
  }

  /** The minor of a symmetric matrix is symmetric. */
  lemma MinorSymmetric(m: Matrix, n: nat)
    requires n > 0 && Square(m, n) && Symmetric(m, n)
    ensures Symmetric(Minor(m, n), n - 1)
  {
    var b := Minor(m, n);
    forall i, j | 0 <= i < n - 1 && 0 <= j < n - 1
      ensures b[i][j] == b[j][i]
    {
      assert b[i][j] == m[i + 1][j + 1] && b[j][i] == m[j + 1][i + 1];
    }
  }

  /** The tail of `u^T m w` past the first entry, for a symmetric `m`:
      `u'^T (Minor(m) w' + w_0 r) = u'^T Minor(m) w' + w_0 r^T u'` with `r`
      the first row's tail. */
  lemma RestPeel(m: Matrix, u: seq<real>, w: seq<real>)
    requires |u| == |w| > 0 && Square(m, |u|) && Symmetric(m, |u|)
    ensures Dot(u[1..], MatVec(m, w)[1..]) ==
            Dot(u[1..], MatVec(Minor(m, |u|), w[1..])) + w[0] * Dot(m[0][1..], u[1..])
  {
    MatVecPeel(m, w);
    DotAddScaledRight(u[1..], MatVec(Minor(m, |u|), w[1..]), w[0], m[0][1..]);
    DotComm(u[1..], m[0][1..]);
  }

  /** `u^T m w` of a symmetric `m` peeled at the first index: the corner and
      the first row against `w'`, then the minor's form and the first row
      against `u'`. */
  lemma BilinearPeel(m: Matrix, u: seq<real>, w: seq<real>)
    requires |u| == |w| > 0 && Square(m, |u|) && Symmetric(m, |u|)
    ensures Dot(u, MatVec(m, w)) ==
            u[0] * (m[0][0] * w[0] + Dot(m[0][1..], w[1..]))
            + (Dot(u[1..], MatVec(Minor(m, |u|), w[1..])) + w[0] * Dot(m[0][1..], u[1..]))
  {
    PeelHead(m, u, w);
    RestPeel(m, u, w);
  }

  /** A symmetric matrix's bilinear form is symmetric: `u^T m w = w^T m u`. */
  lemma {:induction false} BilinearSymmetric(m: Matrix, u: seq<real>, w: seq<real>)
    requires |u| == |w| && Square(m, |u|) && Symmetric(m, |u|)
    ensures Dot(u, MatVec(m, w)) == Dot(w, MatVec(m, u))
    decreases |u|
  {
    var n := |u|;
    if n > 0 {
      MinorSymmetric(m, n);
      BilinearSymmetric(Minor(m, n), u[1..], w[1..]);
      BilinearPeel(m, u, w);
      BilinearPeel(m, w, u);
    }
  }

  /** The quadratic form `d^T m d`. */
  function Quad(m: Matrix, d: seq<real>): real
    requires Square(m, |d|)
  {
    Dot(d, MatVec(m, d))
  }

  /** The quadratic form of a symmetric matrix at `d + v`:
      `Q(d + v) = Q(d) + 2 v^T m d + Q(v)`: the change is linear in `v`
      with slope `2 m d`, plus the form of `v` itself. */
  lemma QuadExpand(m: Matrix, d: seq<real>, v: seq<real>)
    requires |v| == |d| && Square(m, |d|) && Symmetric(m, |d|)
    ensures Quad(m, AddScaled(d, 1.0, v)) == Quad(m, d) + 2.0 * Dot(v, MatVec(m, d)) + Quad(m, v)
  {
    var md, mv := MatVec(m, d), MatVec(m, v);
    var step := AddScaled(md, 1.0, mv);
    assert Quad(m, AddScaled(d, 1.0, v)) == Dot(d, step) + 1.0 * Dot(v, step) by {
      MatVecAddScaled(m, d, 1.0, v);
      DotAddScaled(d, 1.0, v, step);
    }
    assert Dot(d, step) == Quad(m, d) + 1.0 * Dot(d, mv) by {
      DotAddScaledRight(d, md, 1.0, mv);
    }
    assert Dot(v, step) == Dot(v, md) + 1.0 * Quad(m, v) by {
      DotAddScaledRight(v, md, 1.0, mv);
    }
    assert Dot(d, mv) == Dot(v, md) by {
      BilinearSymmetric(m, d, v);
    }
  }

  // Negated and constant directions.

  /** `(-a) . b = -(a . b)`. */
  lemma {:induction false} DotNeg(a: seq<real>, b: seq<real>)
    requires |a| == |b|
    ensures Dot(Neg(a), b) == -Dot(a, b)
  {
    if |a| > 0 {
      assert Neg(a)[1..] == Neg(a[1..]);
      DotNeg(a[1..], b[1..]);
    }
  }

  /** `a . (-b) = -(a . b)`. */
  lemma {:induction false} DotNegRight(a: seq<real>, b: seq<real>)
    requires |a| == |b|
    ensures Dot(a, Neg(b)) == -Dot(a, b)
  {
    if |a| > 0 {
      assert Neg(b)[1..] == Neg(b[1..]);
      DotNegRight(a[1..], b[1..]);
    }
  }

  /** `m (-v) = -(m v)`. */
  lemma MatVecNeg(m: Matrix, v: seq<real>)
    requires Square(m, |v|)
    ensures MatVec(m, Neg(v)) == Neg(MatVec(m, v))
  {
    var l, r := MatVec(m, Neg(v)), Neg(MatVec(m, v));
    forall i | 0 <= i < |v|
      ensures l[i] == r[i]
    {
      DotNegRight(m[i], v);
    }
    assert l == r;
  }

  /** The quadratic form is even: `Q(-v) = Q(v)`. */
  lemma QuadNeg(m: Matrix, v: seq<real>)
    requires Square(m, |v|)
    ensures Quad(m, Neg(v)) == Quad(m, v)
  {
    MatVecNeg(m, v);
    DotNeg(v, Neg(MatVec(m, v)));
    DotNegRight(v, MatVec(m, v));
  }

  /** A constant vector against `b` is the constant times the sum of `b`. */
  lemma {:induction false} DotConsts(t: real, b: seq<real>)
    ensures Dot(Consts(|b|, t), b) == t * Sum(b)
  {
    if |b| > 0 {
      assert Consts(|b|, t)[1..] == Consts(|b| - 1, t);
      DotConsts(t, b[1..]);
    }
  }

  /** `k a`, entrywise. */
  function ScaleMat(k: real, a: Matrix, n: nat): (m: Matrix)
    requires Square(a, n)
    ensures Square(m, n)
    ensures forall i, j :: 0 <= i < n && 0 <= j < n ==> m[i][j] == k * a[i][j]
  {
    seq(n, i requires 0 <= i < n => seq(n, j requires 0 <= j < n => k * a[i][j]))
  }

  /** Scaling `k (a - b)` by `c` is `(k c) (a - b)`. */
  lemma ScaleScaledDiff(c: real, k: real, a: Matrix, b: Matrix, n: nat)
    requires Square(a, n) && Square(b, n)
    ensures ScaleMat(c, ScaledDiff(k, a, b, n), n) == ScaledDiff(k * c, a, b, n)
  {
    var l, r := ScaleMat(c, ScaledDiff(k, a, b, n), n), ScaledDiff(k * c, a, b, n);
    forall i | 0 <= i < n
      ensures l[i] == r[i]
    {
      forall j | 0 <= j < n
        ensures l[i][j] == r[i][j]
      {
        assert l[i][j] == c * (k * (a[i][j] - b[i][j]));
      }
    }
  }
}
