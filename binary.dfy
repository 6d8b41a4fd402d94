/** Element-wise binary operations (`BinaryNode` and the `Add`, `Sub`, `Mul`,
    `Div`, comparison and logical structs) with scalar broadcasting: a scalar
    operand is paired with every element of an array operand, and the seed
    of a broadcast scalar is the sum of the element seeds. */
module BinaryOps {
  import opened Numeric

  datatype Kind = VecKind | MatKind(rows: nat, cols: nat)

  /** A value of scalar, column-vector or matrix shape. */
  datatype Val = Scl(v: real) | Arr(kind: Kind, xs: seq<real>)

  datatype Op =
    | Add | Sub | Mul | Div
    | LessThan | LessThanEq | GreaterThan | GreaterThanEq | Equal | NotEqual
    | LogicalAnd | LogicalOr

  /** Comparisons and logical operators have no derivative: their backward
      evaluation is skipped and they keep no adjoint. */
  predicate IsComparison(op: Op)
  {
    !(op.Add? || op.Sub? || op.Mul? || op.Div?)
  }

  /** The shape combinations a node accepts: one side scalar, or two vectors,
      or two matrices, and two array operands of the same dimensions. */
  predicate ShapesAllowed(l: Val, r: Val)
  {
    l.Scl? || r.Scl? ||
    (l.kind == r.kind && |l.xs| == |r.xs| && (l.kind.VecKind? || l.kind.MatKind?))
  }

  /** Number of elements of the node's value. */
  function Size(l: Val, r: Val): nat
  {
    if l.Arr? then |l.xs| else if r.Arr? then |r.xs| else 1
  }

  /** Element `i` of an operand, a scalar standing for each element. */
  function Elem(a: Val, i: nat): real
    requires a.Arr? ==> i < |a.xs|
  {
    if a.Scl? then a.v else a.xs[i]
  }

  function B(b: bool): real
  {
    if b then 1.0 else 0.0
  }

  function Min(x: real, y: real): real
  {
    if x <= y then x else y
  }

  function Max(x: real, y: real): real
  {
    if x <= y then y else x
  }

  /** No element of the right operand of a division is zero. */
  predicate DivisorsNonZero(op: Op, r: Val)
  {
    op.Div? ==> (if r.Scl? then r.v != 0.0 else forall i :: 0 <= i < |r.xs| ==> r.xs[i] != 0.0)
  }

  /** `fmap` on one pair of elements; `vectorised` tells whether either
      operand is an array, which selects `min`/`max` over `&&`/`||`. */
  function ElemF(op: Op, x: real, y: real, vectorised: bool): real
    requires op.Div? ==> y != 0.0
  {
    match op
    case Add => x + y
    case Sub => x - y
    case Mul => x * y
    case Div => x / y
    case LessThan => B(x < y)
    case LessThanEq => B(x <= y)
    case GreaterThan => B(x > y)
    case GreaterThanEq => B(x >= y)
    case Equal => B(x == y)
    case NotEqual => B(x != y)
    case LogicalAnd => if vectorised then Min(x, y) else B(x != 0.0 && y != 0.0)
    case LogicalOr => if vectorised then Max(x, y) else B(x != 0.0 || y != 0.0)
  }

  /** Partial derivative of `ElemF` in its left argument, as `blmap` uses it
      (`f` is the forward value); zero for comparisons. */
  function DL(op: Op, x: real, y: real): real
    requires op.Div? ==> y != 0.0
  {
    match op
    case Add => 1.0
    case Sub => 1.0
    case Mul => y
    case Div => 1.0 / y
    case _ => 0.0
  }

  /** Partial derivative of `ElemF` in its right argument, as `brmap` uses it;
      for a quotient it is `-f / y`. */
  function DR(op: Op, x: real, y: real): real
    requires op.Div? ==> y != 0.0
  {
    match op
    case Add => 1.0
    case Sub => -1.0
    case Mul => x
    case Div => -(x / y) / y
    case _ => 0.0
  }

  /** Forward map with broadcasting. The result has the array operand's
      shape, or is a scalar when both operands are. */
  function Fmap(op: Op, l: Val, r: Val): (f: Val)
    requires ShapesAllowed(l, r) && DivisorsNonZero(op, r)
    ensures f.Scl? <==> l.Scl? && r.Scl?
    ensures f.Arr? ==> |f.xs| == Size(l, r) && f.kind == (if l.Arr? then l.kind else r.kind)
    ensures f.Scl? ==> f.v == ElemF(op, l.v, r.v, false)
    ensures f.Arr? ==> forall i :: 0 <= i < |f.xs| ==> f.xs[i] == ElemF(op, Elem(l, i), Elem(r, i), true)
  {
    if l.Scl? && r.Scl? then Scl(ElemF(op, l.v, r.v, false))
    else
      var n := Size(l, r);
      Arr(if l.Arr? then l.kind else r.kind,
          seq(n, i requires 0 <= i < n => ElemF(op, Elem(l, i), Elem(r, i), true)))
  }

  /** Seed for the left operand: the node's seed times the left partial
      derivative, element by element, summed when a scalar left operand was
      broadcast against an array. */
  function Blmap(op: Op, seed: Val, l: Val, r: Val): (s: Val)
    requires ShapesAllowed(l, r) && DivisorsNonZero(op, r)
    requires seed.Scl? <==> l.Scl? && r.Scl?
    requires seed.Arr? ==> |seed.xs| == Size(l, r)
    ensures s.Scl? <==> l.Scl?
    ensures s.Arr? ==> s.kind == l.kind && |s.xs| == |l.xs|
    ensures l.Scl? && r.Scl? ==> s.v == seed.v * DL(op, l.v, r.v)
    ensures l.Scl? && r.Arr? ==> s.v == Sum(ElemSeeds(op, seed, l, r, true))
    ensures l.Arr? ==> forall i :: 0 <= i < |s.xs| ==>
              s.xs[i] == seed.xs[i] * DL(op, l.xs[i], Elem(r, i))
  {
    var g := ElemSeeds(op, seed, l, r, true);
    if l.Scl? && r.Scl? then Scl(g[0])
    else if l.Scl? then Scl(Sum(g))
    else Arr(l.kind, g)
  }

  /** Seed for the right operand, the mirror image of `Blmap`. */
  function Brmap(op: Op, seed: Val, l: Val, r: Val): (s: Val)
    requires ShapesAllowed(l, r) && DivisorsNonZero(op, r)
    requires seed.Scl? <==> l.Scl? && r.Scl?
    requires seed.Arr? ==> |seed.xs| == Size(l, r)
    ensures s.Scl? <==> r.Scl?
    ensures s.Arr? ==> s.kind == r.kind && |s.xs| == |r.xs|
    ensures l.Scl? && r.Scl? ==> s.v == seed.v * DR(op, l.v, r.v)
    ensures r.Scl? && l.Arr? ==> s.v == Sum(ElemSeeds(op, seed, l, r, false))
    ensures r.Arr? ==> forall i :: 0 <= i < |s.xs| ==>
              s.xs[i] == seed.xs[i] * DR(op, Elem(l, i), r.xs[i])
  {
    var g := ElemSeeds(op, seed, l, r, false);
    if l.Scl? && r.Scl? then Scl(g[0])
    else if r.Scl? then Scl(Sum(g))
    else Arr(r.kind, g)
  }

  /** Element-wise seeds for the left (`left`) or right operand. */
  function ElemSeeds(op: Op, seed: Val, l: Val, r: Val, left: bool): (g: seq<real>)
    requires ShapesAllowed(l, r) && DivisorsNonZero(op, r)
    requires seed.Scl? <==> l.Scl? && r.Scl?
    requires seed.Arr? ==> |seed.xs| == Size(l, r)
    ensures |g| == Size(l, r)
  {
    var n := Size(l, r);
    seq(n, i requires 0 <= i < n =>
      Elem(seed, i) * (if left then DL(op, Elem(l, i), Elem(r, i)) else DR(op, Elem(l, i), Elem(r, i))))
  }

  /** The left partial is the exact rate of change of `fmap` in its left
      argument: every arithmetic operation is affine in it. */
  lemma LeftDerivativeExact(op: Op, x: real, y: real, h: real)
    requires !IsComparison(op) && (op.Div? ==> y != 0.0)
    ensures ElemF(op, x + h, y, false) == ElemF(op, x, y, false) + h * DL(op, x, y)
  {
    if op.Div? {
      assert (x + h) / y == x / y + h * (1.0 / y);
    }
  }

  /** The right partial is exact for sums, differences and products; for a
      quotient `x / y` it is `-x / y^2` (stated without division: times `y^2`
      it gives `-x`), the limit as `h` goes to 0 of the exact difference
      quotient, which times `y (y + h)` gives `-x`. */
  lemma RightDerivativeExact(op: Op, x: real, y: real, h: real)
    requires !IsComparison(op) && (op.Div? ==> y != 0.0 && y + h != 0.0)
    ensures !op.Div? ==> ElemF(op, x, y + h, false) == ElemF(op, x, y, false) + h * DR(op, x, y)
    ensures op.Div? ==> DR(op, x, y) * (y * y) == -x
    ensures op.Div? ==> (ElemF(op, x, y + h, false) - ElemF(op, x, y, false)) * (y * (y + h)) == -x * h
  {
    match op {
      case Div => QuotientRightRate(op, x, y, h);
      case Mul => ProductRightRate(op, x, y, h);
      case _ => SumRightRate(op, x, y, h);
    }
  }

  lemma SumRightRate(op: Op, x: real, y: real, h: real)
    requires op.Add? || op.Sub?
    ensures ElemF(op, x, y + h, false) == ElemF(op, x, y, false) + h * DR(op, x, y)
  {
  }

  lemma ProductRightRate(op: Op, x: real, y: real, h: real)
    requires op.Mul?
    ensures ElemF(op, x, y + h, false) == ElemF(op, x, y, false) + h * DR(op, x, y)
  {
    assert x * (y + h) == x * y + h * x;
  }

  lemma QuotientRightRate(op: Op, x: real, y: real, h: real)
    requires op.Div? && y != 0.0 && y + h != 0.0
    ensures DR(op, x, y) * (y * y) == -x
    ensures (ElemF(op, x, y + h, false) - ElemF(op, x, y, false)) * (y * (y + h)) == -x * h
  {
    DivTwice(x, y);
    DivDifference(x, y, h);
  }

  lemma DivTwice(x: real, y: real)
    requires y != 0.0
    ensures (-(x / y) / y) * (y * y) == -x
  {
    var q := x / y;
    var r := -q / y;
    assert q * y == x;
    assert r * y == -q;
    assert r * (y * y) == (r * y) * y;
  }

  lemma DivDifference(x: real, y: real, h: real)
    requires y != 0.0 && y + h != 0.0
    ensures (x / (y + h) - x / y) * (y * (y + h)) == -x * h
  {
    var a, b := x / (y + h), x / y;
    assert a * (y + h) == x;
    assert b * y == x;
    assert (a - b) * (y * (y + h)) == (a * (y + h)) * y - (b * y) * (y + h);
  }

  /** Comparisons pass no seed to either operand. */
  lemma ComparisonSeedsZero(op: Op, seed: Val, l: Val, r: Val)
    requires IsComparison(op) && ShapesAllowed(l, r)
    requires seed.Scl? <==> l.Scl? && r.Scl?
    requires seed.Arr? ==> |seed.xs| == Size(l, r)
    ensures Blmap(op, seed, l, r) == Zero(l)
    ensures Brmap(op, seed, l, r) == Zero(r)
  {
    var g := ElemSeeds(op, seed, l, r, true);
    var h := ElemSeeds(op, seed, l, r, false);
    assert forall i :: 0 <= i < |g| ==> g[i] == 0.0;
    assert forall i :: 0 <= i < |h| ==> h[i] == 0.0;
    if l.Scl? && r.Arr? {
      SumPointwiseScale(0.0, g, g);
    }
    if r.Scl? && l.Arr? {
      SumPointwiseScale(0.0, h, h);
    }
  }

  /** `min` and `max` are the vectorised `&&` and `||`: they agree with the
      scalar forms on the boolean values 0 and 1. */
  lemma LogicalBooleanContext(x: real, y: real)
    requires (x == 0.0 || x == 1.0) && (y == 0.0 || y == 1.0)
    ensures ElemF(LogicalAnd, x, y, true) == ElemF(LogicalAnd, x, y, false)
    ensures ElemF(LogicalOr, x, y, true) == ElemF(LogicalOr, x, y, false)
  {
  }

  /** The zero value of a given shape. */
  function Zero(a: Val): (z: Val)
    ensures z.Scl? <==> a.Scl?
  {
    if a.Scl? then Scl(0.0) else Arr(a.kind, Consts(|a.xs|, 0.0))
  }

  /** Adding a seed into an adjoint of the same shape. */
  function AddVal(a: Val, b: Val): (c: Val)
    requires a.Scl? <==> b.Scl?
    requires a.Arr? ==> |a.xs| == |b.xs|
    ensures c.Scl? <==> a.Scl?
    ensures c.Scl? ==> c.v == a.v + b.v
    ensures c.Arr? ==> c.kind == a.kind && |c.xs| == |a.xs|
    ensures c.Arr? ==> forall i :: 0 <= i < |c.xs| ==> c.xs[i] == a.xs[i] + b.xs[i]
  {
    if a.Scl? then Scl(a.v + b.v)
    else Arr(a.kind, seq(|a.xs|, i requires 0 <= i < |a.xs| => a.xs[i] + b.xs[i]))
  }

  predicate SameShape(a: Val, b: Val)
  {
    (a.Scl? <==> b.Scl?) && (a.Arr? ==> a.kind == b.kind && |a.xs| == |b.xs|)
  }

  /** A binary node over two leaves `l` and `r` (values and adjoints). */
  class BinaryNode {
    const op: Op
    var lval: Val
    var ladj: Val
    var rval: Val
    var radj: Val
    var value: Val
    var adj: Val

    ghost predicate Valid()
      reads this
    {
      ShapesAllowed(lval, rval) && DivisorsNonZero(op, rval) &&
      SameShape(ladj, lval) && SameShape(radj, rval)
    }

    /** The value the node should hold once forward evaluation has run. */
    ghost predicate Evaluated()
      reads this
      requires Valid()
    {
      value == Fmap(op, lval, rval)
    }

    constructor (op: Op, l: Val, r: Val)
      requires ShapesAllowed(l, r) && DivisorsNonZero(op, r)
      ensures Valid() && this.op == op && lval == l && rval == r
      ensures ladj == Zero(l) && radj == Zero(r)
    {
      this.op, lval, rval := op, l, r;
      ladj, radj := Zero(l), Zero(r);
      value, adj := Scl(0.0), Scl(0.0);
      new;
      assert ladj.Arr? ==> |ladj.xs| == |l.xs|;
    }

    /** Forward evaluation applies `fmap` and caches the result. */
    method Feval() returns (v: Val)
      requires Valid()
      modifies this
      ensures Valid() && Evaluated() && v == value
      ensures lval == old(lval) && rval == old(rval) && ladj == old(ladj) && radj == old(radj)
      ensures adj == old(adj)
    {
      value := Fmap(op, lval, rval);
      v := value;
    }

    /** Backward evaluation after forward evaluation. Comparisons do
        nothing; otherwise the node records the seed as its adjoint and the
        right, then the left operand receive their seeds. */
    method Beval(seed: Val)
      requires Valid() && Evaluated() && SameShape(seed, value)
      modifies this
      ensures Valid() && Evaluated()
      ensures lval == old(lval) && rval == old(rval) && value == old(value)
      ensures IsComparison(op) ==> ladj == old(ladj) && radj == old(radj) && adj == old(adj)
      ensures !IsComparison(op) ==> adj == seed
      ensures !IsComparison(op) ==> radj == AddVal(old(radj), Brmap(op, seed, lval, rval))
      ensures !IsComparison(op) ==> ladj == AddVal(old(ladj), Blmap(op, seed, lval, rval))
    {
      if !IsComparison(op) {
        adj := seed;
        var rhsSeed := Brmap(op, adj, lval, rval);
        var lhsSeed := Blmap(op, adj, lval, rval);
        radj := AddVal(radj, rhsSeed);
        ladj := AddVal(ladj, lhsSeed);
      }
    }
  }
}
