/** Integer powers with an exponent fixed at compile time (`PowFunc`,
    `PowNode`, `ad::pow`) for a scalar operand. */
module Pow {
  import opened Numeric

  /** The textbook power `b^n`, the reference the fast recursion is checked
      against. */
  function Power(b: real, n: nat): real
  {
    if n == 0 then 1.0 else b * Power(b, n - 1)
  }

  lemma {:induction false} PowerAdd(b: real, m: nat, n: nat)
    ensures Power(b, m + n) == Power(b, m) * Power(b, n)
  {
    if m > 0 {
      PowerAdd(b, m - 1, n);
      assert Power(b, m + n) == b * Power(b, m - 1 + n);
    }
  }

  lemma {:induction false} PowerOfInverse(b: real, n: nat)
    requires b != 0.0
    ensures Power(1.0 / b, n) * Power(b, n) == 1.0
  {
    if n > 0 {
      PowerOfInverse(b, n - 1);
      calc {
        Power(1.0 / b, n) * Power(b, n);
        (1.0 / b) * Power(1.0 / b, n - 1) * (b * Power(b, n - 1));
        ((1.0 / b) * b) * (Power(1.0 / b, n - 1) * Power(b, n - 1));
      }
    }
  }

  lemma {:induction false} PowerOfZero(n: nat)
    requires n > 0
    ensures Power(0.0, n) == 0.0
  {
  }

  /** `PowFunc<n>` for `n >= 0`: square the half power for an even exponent,
      peel one factor off an odd one; `0^0` is 1. It computes `b^n`. */
  function PowNat(n: nat, b: real): (r: real)
    ensures r == Power(b, n)
  {
    if n == 0 then 1.0
    else if n % 2 == 0 then
      var tmp := PowNat(n / 2, b);
      PowerAdd(b, n / 2, n / 2);
      tmp * tmp
    else
      b * PowNat(n - 1, b)
  }

  /** `PowFunc<e>` for any exponent: a negative power of zero is `+inf`,
      otherwise a negative power is the positive power of the reciprocal. */
  function PowFunc(e: int, b: real): (r: Ext)
    ensures e >= 0 ==> r == Fin(Power(b, e))
    ensures e < 0 && b == 0.0 ==> r == PosInf
    ensures e < 0 && b != 0.0 ==> r.Fin? && r.r * Power(b, -e) == 1.0
  {
    if e >= 0 then Fin(PowNat(e, b))
    else if b == 0.0 then PosInf
    else
      PowerOfInverse(b, -e);
      Fin(PowNat(-e, 1.0 / b))
  }

  /** The seed `PowNode::beval` passes to its operand, given the node's value
      `val` computed by forward evaluation. It is the exact derivative
      `e * seed * x^(e-1)`, including at `x == 0` for `e > 1` where the code
      avoids dividing by zero; for a negative exponent at zero it is `-inf`. */
  function PowSeed(e: int, seed: real, x: real, val: Ext): (s: Ext)
    requires val == PowFunc(e, x)
    ensures e == 0 ==> s == Fin(0.0)
    ensures e == 1 ==> s == Fin(seed)
    ensures e > 1 ==> s == Fin(e as real * seed * Power(x, e - 1))
    ensures e < 0 && x != 0.0 ==> s == Fin(e as real * seed * Power(1.0 / x, 1 - e))
    ensures e < 0 && x == 0.0 ==> s == NegInf
  {
    if e == 0 then Fin(0.0)
    else if e == 1 then Fin(seed)
    else if e > 1 then
      var ratio := if x == 0.0 then 0.0 else val.r / x;
      assert ratio == Power(x, e - 1) by {
        PowSeedAboveOne(e, x);
      }
      var res := Fin(e as real * seed * ratio);
      assert res == Fin(e as real * seed * Power(x, e - 1));
      res
    else if x == 0.0 then NegInf
    else
      var ratio := val.r / x;
      assert ratio == Power(1.0 / x, 1 - e) by {
        PowSeedNegative(e, x);
      }
      var res := Fin(e as real * seed * ratio);
      assert res == Fin(e as real * seed * Power(1.0 / x, 1 - e));
      res
  }

  lemma PowSeedAboveOne(e: int, x: real)
    requires e > 1
    ensures x == 0.0 ==> Power(x, e - 1) == 0.0
    ensures x != 0.0 ==> Power(x, e) / x == Power(x, e - 1)
  {
    if x == 0.0 {
      PowerOfZero(e - 1);
    }
  }

  lemma PowSeedNegative(e: int, x: real)
    requires e < 0 && x != 0.0
    ensures PowFunc(e, x).r / x == Power(1.0 / x, 1 - e)
  {
    var n := -e;
    PowerAdd(1.0 / x, n, 1);
    assert PowFunc(e, x).r == Power(1.0 / x, n);
  }

  /** `single_bind_cache_size`: a node always caches its value; it needs an
      adjoint slot only when backward evaluation records the seed there,
      that is for every exponent other than 0 and 1. */
  function SingleBindCacheSize(e: int, size: nat): (sizes: (nat, nat))
    ensures sizes.0 == size
    ensures sizes.1 == 0 <==> e == 0 || e == 1 || size == 0
  {
    if e == 0 || e == 1 then (size, 0) else (size, size)
  }

  /** A power node over a scalar leaf `x` (value `xval`, adjoint `xadj`). */
  class PowNode {
    const e: int
    var xval: real
    var xadj: Ext
    var value: Ext
    var adj: real

    constructor (e: int, xval: real)
      ensures this.e == e && this.xval == xval && xadj == Fin(0.0)
      ensures value == Fin(0.0) && adj == 0.0
    {
      this.e, this.xval, xadj, value, adj := e, xval, Fin(0.0), Fin(0.0), 0.0;
    }

    /** Forward evaluation stores and returns `x^e`. */
    method Feval() returns (v: Ext)
      modifies this
      ensures v == value == PowFunc(e, xval)
      ensures xval == old(xval) && xadj == old(xadj) && adj == old(adj)
    {
      value := PowFunc(e, xval);
      v := value;
    }

    /** Backward evaluation after forward evaluation: the operand's adjoint
        receives the derivative times the seed; for exponents other than 0 and
        1 the seed is recorded in the node's own adjoint. */
    method Beval(seed: real)
      requires value == PowFunc(e, xval)
      modifies this
      ensures xval == old(xval) && value == old(value)
      ensures xadj == ExtAdd(old(xadj), PowSeed(e, seed, xval, value))
      ensures e != 0 && e != 1 ==> adj == seed
      ensures e == 0 || e == 1 ==> adj == old(adj)
    {
      if e == 0 {
        xadj := ExtAdd(xadj, Fin(0.0));
      } else if e == 1 {
        xadj := ExtAdd(xadj, Fin(seed));
      } else {
        adj := seed;
        var corrected: Ext;
        if e > 1 {
          corrected := Fin(e as real * adj * (if xval == 0.0 then 0.0 else value.r / xval));
        } else {
          corrected := if xval == 0.0 then NegInf else Fin(e as real * adj * (value.r / xval));
        }
        xadj := ExtAdd(xadj, corrected);
      }
    }
  }

  /** Backward evaluation with a zero seed never changes a finite operand
      adjoint, except for a negative exponent at zero, where `-inf` flows
      regardless of the seed. */
  lemma PowSeedZero(e: int, x: real)
    ensures !(e < 0 && x == 0.0) ==> PowSeed(e, 0.0, x, PowFunc(e, x)) == Fin(0.0)
    ensures e < 0 && x == 0.0 ==> PowSeed(e, 0.0, x, PowFunc(e, x)) == NegInf
  {
  }
}
