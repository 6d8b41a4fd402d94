/** Operands of the log-density nodes (`ad::stat`): each of `x` and the
    distribution's parameters is a scalar or a column vector, and a scalar
    parameter is shared by every observation. */
module StatArgs {
  import opened Numeric

  datatype Arg = Scalar(v: real) | Vector(xs: seq<real>)

  /** Number of entries: 1 for a scalar. */
  function Size(a: Arg): nat
  {
    if a.Scalar? then 1 else |a.xs|
  }

  /** Entry `i`, a scalar standing for every index. */
  function At(a: Arg, i: nat): real
    requires a.Vector? ==> i < |a.xs|
  {
    if a.Scalar? then a.v else a.xs[i]
  }

  /** A parameter fits `n` observations when it is a scalar or has `n`
      entries (the sizes the nodes assert at construction). */
  predicate Conforms(p: Arg, n: nat)
  {
    p.Scalar? || |p.xs| == n
  }

  predicate SameShape(a: Arg, b: Arg)
  {
    (a.Scalar? <==> b.Scalar?) && (a.Vector? ==> |a.xs| == |b.xs|)
  }

  /** What `beval` of a leaf operand does to its adjoint: entrywise `+=`. */
  function AddArg(a: Arg, b: Arg): (c: Arg)
    requires SameShape(a, b)
    ensures SameShape(c, a)
    ensures forall i :: 0 <= i < Size(a) ==> At(c, i) == At(a, i) + At(b, i)
  {
    if a.Scalar? then Scalar(a.v + b.v)
    else Vector(seq(|a.xs|, i requires 0 <= i < |a.xs| => a.xs[i] + b.xs[i]))
  }

  function ZeroLike(a: Arg): (z: Arg)
    ensures SameShape(z, a)
    ensures forall i :: 0 <= i < Size(a) ==> At(z, i) == 0.0
  {
    if a.Scalar? then Scalar(0.0) else Vector(Consts(|a.xs|, 0.0))
  }

  /** Entrywise product by a constant. */
  function ScaleArg(k: real, a: Arg): (c: Arg)
    ensures SameShape(c, a)
    ensures forall i :: 0 <= i < Size(a) ==> At(c, i) == k * At(a, i)
  {
    if a.Scalar? then Scalar(k * a.v) else Vector(Scale(k, a.xs))
  }

  /** Entrywise sum with a constant. */
  function Shift(a: Arg, c: real): (b: Arg)
    ensures SameShape(b, a)
    ensures forall i :: 0 <= i < Size(a) ==> At(b, i) == At(a, i) + c
  {
    if a.Scalar? then Scalar(a.v + c) else Vector(seq(|a.xs|, i requires 0 <= i < |a.xs| => a.xs[i] + c))
  }

  /** The entries in order, as they appear in a reference gradient vector. */
  function Flat(a: Arg): (s: seq<real>)
    ensures |s| == Size(a)
    ensures forall i :: 0 <= i < |s| ==> s[i] == At(a, i)
  {
    if a.Scalar? then [a.v] else a.xs
  }

  /** Every observation's operands, broadcast as numpy does. */
  function Broadcast(a: Arg, n: nat): (s: seq<real>)
    requires Conforms(a, n)
    ensures |s| == n
  {
    seq(n, i requires 0 <= i < n => At(a, i))
  }

  /** Adding a zero seed leaves an adjoint as it was. */
  lemma AddZero(a: Arg, z: Arg)
    requires SameShape(z, a)
    requires forall i :: 0 <= i < Size(a) ==> At(z, i) == 0.0
    ensures AddArg(a, z) == a
  {
    if a.Vector? {
      var c := AddArg(a, z);
      forall i | 0 <= i < |a.xs|
        ensures c.xs[i] == a.xs[i]
      {
        assert At(c, i) == At(a, i) + At(z, i);
      }
      assert c.xs == a.xs;
    } else {
      assert At(z, 0) == 0.0;
    }
  }

  /** Two operands with the same entries are equal. */
  lemma ArgExt(a: Arg, b: Arg)
    requires SameShape(a, b)
    requires forall i :: 0 <= i < Size(a) ==> At(a, i) == At(b, i)
    ensures a == b
  {
    if a.Vector? {
      forall i | 0 <= i < |a.xs|
        ensures a.xs[i] == b.xs[i]
      {
        assert At(a, i) == At(b, i);
      }
      assert a.xs == b.xs;
    } else {
      assert At(a, 0) == At(b, 0);
    }
  }
}
