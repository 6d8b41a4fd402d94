/** Assignment to a placeholder variable (`EqNode`, `w = expr`) and compound
    assignment (`OpEqNode` with `AddEq`, `SubEq`, `MulEq`, `DivEq`,
    `u += expr` and so on). The placeholder and the right-hand side are
    leaves here: a value and an adjoint each. */
module Assign {
  import opened Numeric
  import opened BinaryOps

  /** Assignment `w = expr`: the placeholder takes the expression's value and,
      on the way back, hands its whole accumulated adjoint to the
      expression. The expression is held as a value with an adjoint of its
      own (`exprAdj`), standing for the root of a composite expression; the
      source does not allow the expression to be a plain variable view. */
  class EqNode {
    var varVal: Val
    var varAdj: Val
    var exprVal: Val
    var exprAdj: Val

    ghost predicate Valid()
      reads this
    {
      SameShape(varVal, exprVal) && SameShape(varAdj, varVal) && SameShape(exprAdj, exprVal)
    }

    constructor (varVal: Val, exprVal: Val)
      requires SameShape(varVal, exprVal)
      ensures Valid() && this.varVal == varVal && this.exprVal == exprVal
      ensures varAdj == Zero(varVal) && exprAdj == Zero(exprVal)
    {
      this.varVal, this.exprVal := varVal, exprVal;
      varAdj, exprAdj := Zero(varVal), Zero(exprVal);
    }

    /** Forward evaluation writes the expression's value into the
        placeholder; the node's value is that same storage. */
    method Feval() returns (v: Val)
      requires Valid()
      modifies this
      ensures Valid() && v == varVal == exprVal == old(exprVal)
      ensures varAdj == old(varAdj) && exprAdj == old(exprAdj)
    {
      varVal := exprVal;
      v := varVal;
    }

    /** Backward evaluation adds the seed to the placeholder's adjoint, then
        passes the placeholder's full adjoint (every contribution collected
        from the expressions that use it, plus this seed) to the
        expression. */
    method Beval(seed: Val)
      requires Valid() && SameShape(seed, varVal)
      modifies this
      ensures Valid() && varVal == old(varVal) && exprVal == old(exprVal)
      ensures varAdj == AddVal(old(varAdj), seed)
      ensures exprAdj == AddVal(old(exprAdj), varAdj)
    {
      varAdj := AddVal(varAdj, seed);
      exprAdj := AddVal(exprAdj, varAdj);
    }
  }

  datatype OpEqKind = AddEq | SubEq | MulEq | DivEq

  /** The binary operation a compound assignment applies. */
  function AsBinary(k: OpEqKind): (op: Op)
    ensures !IsComparison(op)
  {
    match k
    case AddEq => Add
    case SubEq => Sub
    case MulEq => Mul
    case DivEq => Div
  }

  /** A compound assignment's right-hand side is a scalar or has the
      variable's shape. */
  predicate OpEqShapes(x: Val, y: Val)
  {
    y.Scl? || SameShape(x, y)
  }

  /** `blmap` of a compound assignment on one element: the seed for the old
      value `x` of the variable, given the right-hand side `y`. */
  function EqLeftSeed(k: OpEqKind, seed: real, y: real): real
    requires k.DivEq? ==> y != 0.0
  {
    match k
    case AddEq => seed
    case SubEq => seed
    case MulEq => seed * y
    case DivEq => seed / y
  }

  /** `brmap` of a compound assignment on one element: the seed for the
      right-hand side `y`, given the old value `x` of the variable. */
  function EqRightSeed(k: OpEqKind, seed: real, x: real, y: real): real
    requires k.DivEq? ==> y != 0.0
  {
    match k
    case AddEq => seed
    case SubEq => -seed
    case MulEq => seed * x
    case DivEq => -seed * x / (y * y)
  }

  /** Seed for the variable's old value; it has the variable's shape. */
  function OpEqBlmap(k: OpEqKind, seed: Val, x: Val, y: Val): (s: Val)
    requires OpEqShapes(x, y) && SameShape(seed, x) && DivisorsNonZero(AsBinary(k), y)
    ensures SameShape(s, x)
  {
    if x.Scl? then Scl(EqLeftSeed(k, seed.v, y.v))
    else Arr(x.kind, EqLeftSeeds(k, seed, x, y))
  }

  /** The per-element left seeds of an array variable. */
  function EqLeftSeeds(k: OpEqKind, seed: Val, x: Val, y: Val): (g: seq<real>)
    requires x.Arr? && OpEqShapes(x, y) && SameShape(seed, x) && DivisorsNonZero(AsBinary(k), y)
    ensures |g| == |x.xs|
  {
    seq(|x.xs|, i requires 0 <= i < |x.xs| => EqLeftSeed(k, seed.xs[i], Elem(y, i)))
  }

  /** Seed for the right-hand side; summed over the variable's elements when
      a scalar right-hand side was broadcast. */
  function OpEqBrmap(k: OpEqKind, seed: Val, x: Val, y: Val): (s: Val)
    requires OpEqShapes(x, y) && SameShape(seed, x) && DivisorsNonZero(AsBinary(k), y)
    ensures SameShape(s, y)
  {
    if x.Scl? then Scl(EqRightSeed(k, seed.v, x.v, y.v))
    else if y.Scl? then Scl(Sum(EqRightSeeds(k, seed, x, y)))
    else Arr(y.kind, EqRightSeeds(k, seed, x, y))
  }

  /** The per-element right seeds of an array variable. */
  function EqRightSeeds(k: OpEqKind, seed: Val, x: Val, y: Val): (g: seq<real>)
    requires x.Arr? && OpEqShapes(x, y) && SameShape(seed, x) && DivisorsNonZero(AsBinary(k), y)
    ensures |g| == |x.xs|
  {
    seq(|x.xs|, i requires 0 <= i < |x.xs| => EqRightSeed(k, seed.xs[i], x.xs[i], Elem(y, i)))
  }

  lemma QuotientSeedsAgree(s: real, x: real, y: real)
    requires y != 0.0
    ensures s / y == s * DL(Div, x, y)
    ensures -s * x / (y * y) == s * DR(Div, x, y)
  {
    var a := -s * x / (y * y);
    var d := DR(Div, x, y);
    var yy := y * y;
    assert yy != 0.0 by {
      NonZeroSquare(y);
    }
    assert a * yy == -s * x;
    assert d * yy == -x by {
      DivTwice(x, y);
    }
    assert (s * d) * yy == s * (d * yy);
    CancelNonZero(a, s * d, yy);
  }

  lemma NonZeroSquare(y: real)
    requires y != 0.0
    ensures y * y != 0.0
  {
    if y > 0.0 {
      assert y * y > 0.0;
    } else {
      assert y * y > 0.0;
    }
  }

  lemma CancelNonZero(a: real, b: real, c: real)
    requires c != 0.0 && a * c == b * c
    ensures a == b
  {
    assert (a - b) * c == 0.0;
  }

  lemma ElemSeedsAgree(k: OpEqKind, s: real, x: real, y: real)
    requires k.DivEq? ==> y != 0.0
    ensures EqLeftSeed(k, s, y) == s * DL(AsBinary(k), x, y)
    ensures EqRightSeed(k, s, x, y) == s * DR(AsBinary(k), x, y)
  {
    if k.DivEq? {
      QuotientSeedsAgree(s, x, y);
    }
  }

  /** `u op= y` passes exactly the seeds of the binary node `u op y` built on
      the old value of `u`: a compound assignment has the gradient of the
      operation it applies. */
  lemma OpEqSeedsAgree(k: OpEqKind, seed: Val, x: Val, y: Val)
    requires OpEqShapes(x, y) && SameShape(seed, x) && DivisorsNonZero(AsBinary(k), y)
    ensures ShapesAllowed(x, y)
    ensures OpEqBlmap(k, seed, x, y) == Blmap(AsBinary(k), seed, x, y)
    ensures OpEqBrmap(k, seed, x, y) == Brmap(AsBinary(k), seed, x, y)
  {
    if x.Scl? {
      ScalarSeedsAgree(k, seed, x, y);
    } else {
      LeftSeedsAgree(k, seed, x, y);
      RightSeedsAgree(k, seed, x, y);
    }
  }

  lemma ScalarSeedsAgree(k: OpEqKind, seed: Val, x: Val, y: Val)
    requires x.Scl? && OpEqShapes(x, y) && SameShape(seed, x) && DivisorsNonZero(AsBinary(k), y)
    ensures ShapesAllowed(x, y)
    ensures OpEqBlmap(k, seed, x, y) == Blmap(AsBinary(k), seed, x, y)
    ensures OpEqBrmap(k, seed, x, y) == Brmap(AsBinary(k), seed, x, y)
  {
    ScalarOpEqSeeds(k, seed, x, y);
    ScalarLeftSeed(AsBinary(k), seed, x, y);
    ScalarRightSeed(AsBinary(k), seed, x, y);
    ElemSeedsAgree(k, seed.v, x.v, y.v);
  }

  lemma ScalarOpEqSeeds(k: OpEqKind, seed: Val, x: Val, y: Val)
    requires x.Scl? && OpEqShapes(x, y) && SameShape(seed, x) && DivisorsNonZero(AsBinary(k), y)
    ensures y.Scl?
    ensures OpEqBlmap(k, seed, x, y) == Scl(EqLeftSeed(k, seed.v, y.v))
    ensures OpEqBrmap(k, seed, x, y) == Scl(EqRightSeed(k, seed.v, x.v, y.v))
  {
  }

  lemma ScalarLeftSeed(op: Op, seed: Val, x: Val, y: Val)
    requires x.Scl? && y.Scl? && seed.Scl? && DivisorsNonZero(op, y)
    ensures ShapesAllowed(x, y)
    ensures Blmap(op, seed, x, y) == Scl(seed.v * DL(op, x.v, y.v))
  {
    var b := Blmap(op, seed, x, y);
    assert b.Scl? && b.v == seed.v * DL(op, x.v, y.v);
  }

  lemma ScalarRightSeed(op: Op, seed: Val, x: Val, y: Val)
    requires x.Scl? && y.Scl? && seed.Scl? && DivisorsNonZero(op, y)
    ensures ShapesAllowed(x, y)
    ensures Brmap(op, seed, x, y) == Scl(seed.v * DR(op, x.v, y.v))
  {
    var b := Brmap(op, seed, x, y);
    assert b.Scl? && b.v == seed.v * DR(op, x.v, y.v);
  }

  lemma LeftSeedsAgree(k: OpEqKind, seed: Val, x: Val, y: Val)
    requires x.Arr? && OpEqShapes(x, y) && SameShape(seed, x) && DivisorsNonZero(AsBinary(k), y)
    ensures ShapesAllowed(x, y)
    ensures OpEqBlmap(k, seed, x, y) == Blmap(AsBinary(k), seed, x, y)
  {
    var g := EqLeftSeeds(k, seed, x, y);
    var h := ElemSeeds(AsBinary(k), seed, x, y, true);
    forall i | 0 <= i < |x.xs|
      ensures g[i] == h[i]
    {
      LeftSeedAt(k, seed, x, y, i);
    }
    assert g == h;
  }

  /** One element of the left seeds. */
  lemma LeftSeedAt(k: OpEqKind, seed: Val, x: Val, y: Val, i: nat)
    requires x.Arr? && OpEqShapes(x, y) && SameShape(seed, x) && DivisorsNonZero(AsBinary(k), y)
    requires i < |x.xs|
    ensures ShapesAllowed(x, y)
    ensures EqLeftSeeds(k, seed, x, y)[i] == ElemSeeds(AsBinary(k), seed, x, y, true)[i]
  {
    LeftEntries(k, seed, x, y, i);
    ElemSeedsAgree(k, seed.xs[i], x.xs[i], Elem(y, i));
  }

  lemma LeftEntries(k: OpEqKind, seed: Val, x: Val, y: Val, i: nat)
    requires x.Arr? && OpEqShapes(x, y) && SameShape(seed, x) && DivisorsNonZero(AsBinary(k), y)
    requires i < |x.xs|
    ensures ShapesAllowed(x, y)
    ensures EqLeftSeeds(k, seed, x, y)[i] == EqLeftSeed(k, seed.xs[i], Elem(y, i))
    ensures ElemSeeds(AsBinary(k), seed, x, y, true)[i] == seed.xs[i] * DL(AsBinary(k), x.xs[i], Elem(y, i))
  {
    assert Elem(seed, i) == seed.xs[i] && Elem(x, i) == x.xs[i];
  }

  lemma RightSeedsAgree(k: OpEqKind, seed: Val, x: Val, y: Val)
    requires x.Arr? && OpEqShapes(x, y) && SameShape(seed, x) && DivisorsNonZero(AsBinary(k), y)
    ensures ShapesAllowed(x, y)
    ensures OpEqBrmap(k, seed, x, y) == Brmap(AsBinary(k), seed, x, y)
  {
    var g := EqRightSeeds(k, seed, x, y);
    var h := ElemSeeds(AsBinary(k), seed, x, y, false);
    forall i | 0 <= i < |x.xs|
      ensures g[i] == h[i]
    {
      RightSeedAt(k, seed, x, y, i);
    }
    if y.Scl? {
      SumPointwiseEq(g, h);
    } else {
      assert g == h;
    }
  }

  /** One element of the right seeds. */
  lemma RightSeedAt(k: OpEqKind, seed: Val, x: Val, y: Val, i: nat)
    requires x.Arr? && OpEqShapes(x, y) && SameShape(seed, x) && DivisorsNonZero(AsBinary(k), y)
    requires i < |x.xs|
    ensures ShapesAllowed(x, y)
    ensures EqRightSeeds(k, seed, x, y)[i] == ElemSeeds(AsBinary(k), seed, x, y, false)[i]
  {
    RightEntries(k, seed, x, y, i);
    ElemSeedsAgree(k, seed.xs[i], x.xs[i], Elem(y, i));
  }

  lemma RightEntries(k: OpEqKind, seed: Val, x: Val, y: Val, i: nat)
    requires x.Arr? && OpEqShapes(x, y) && SameShape(seed, x) && DivisorsNonZero(AsBinary(k), y)
    requires i < |x.xs|
    ensures ShapesAllowed(x, y)
    ensures EqRightSeeds(k, seed, x, y)[i] == EqRightSeed(k, seed.xs[i], x.xs[i], Elem(y, i))
    ensures ElemSeeds(AsBinary(k), seed, x, y, false)[i] == seed.xs[i] * DR(AsBinary(k), x.xs[i], Elem(y, i))
  {
    assert Elem(seed, i) == seed.xs[i] && Elem(x, i) == x.xs[i];
  }

  lemma ZeroOfSameShape(a: Val, b: Val)
    requires SameShape(a, b)
    ensures Zero(a) == Zero(b)
  {
  }

  lemma AddZeroLeft(a: Val)
    ensures AddVal(Zero(a), a) == a
  {
    if a.Arr? {
      assert AddVal(Zero(a), a).xs == a.xs;
    }
  }

  /** Compound assignment `u op= expr`. The node's value and adjoint are the
      variable's own storage; `cacheVal` and `cacheAdj` are the node's cache
      of the variable's previous value and of the incoming adjoint. */
  class OpEqNode {
    const kind: OpEqKind
    var varVal: Val
    var varAdj: Val
    var exprVal: Val
    var exprAdj: Val
    var cacheVal: Val
    var cacheAdj: Val

    ghost predicate Valid()
      reads this
    {
      OpEqShapes(varVal, exprVal) && DivisorsNonZero(AsBinary(kind), exprVal) &&
      SameShape(varAdj, varVal) && SameShape(cacheVal, varVal) &&
      SameShape(cacheAdj, varVal) && SameShape(exprAdj, exprVal)
    }

    constructor (kind: OpEqKind, varVal: Val, exprVal: Val)
      requires OpEqShapes(varVal, exprVal) && DivisorsNonZero(AsBinary(kind), exprVal)
      ensures Valid() && this.kind == kind && this.varVal == varVal && this.exprVal == exprVal
      ensures varAdj == Zero(varVal) && exprAdj == Zero(exprVal)
    {
      this.kind, this.varVal, this.exprVal := kind, varVal, exprVal;
      varAdj, exprAdj := Zero(varVal), Zero(exprVal);
      cacheVal, cacheAdj := varVal, Zero(varVal);
      new;
      assert SameShape(varAdj, varVal);
    }

    /** Forward evaluation saves the variable's value in the cache, then
        updates the variable in place with the operation. */
    method Feval() returns (v: Val)
      requires Valid()
      modifies this
      ensures Valid() && cacheVal == old(varVal)
      ensures v == varVal == Fmap(AsBinary(kind), old(varVal), exprVal)
      ensures exprVal == old(exprVal) && varAdj == old(varAdj) && exprAdj == old(exprAdj)
      ensures cacheAdj == old(cacheAdj)
    {
      cacheVal := varVal;
      varVal := Fmap(AsBinary(kind), varVal, exprVal);
      v := varVal;
    }

    /** Backward evaluation (run after forward evaluation): the seed joins the
        variable's adjoint; the variable gets its old value back; the
        accumulated adjoint moves into the cache and the variable's adjoint is
        reset; then the right-hand side and finally the variable's old value
        receive their seeds. */
    method Beval(seed: Val)
      requires Valid() && SameShape(seed, varVal)
      modifies this
      ensures Valid() && exprVal == old(exprVal)
      ensures varVal == old(cacheVal)
      ensures cacheAdj == AddVal(old(varAdj), seed)
      ensures varAdj == OpEqBlmap(kind, cacheAdj, varVal, exprVal)
      ensures exprAdj == AddVal(old(exprAdj), OpEqBrmap(kind, cacheAdj, varVal, exprVal))
    {
      var total := AddVal(varAdj, seed);
      var lseed := OpEqBlmap(kind, total, cacheVal, exprVal);
      var rseed := OpEqBrmap(kind, total, cacheVal, exprVal);
      assert AddVal(Zero(cacheVal), lseed) == lseed by {
        ZeroOfSameShape(cacheVal, lseed);
        AddZeroLeft(lseed);
      }
      // The variable's value is restored and its accumulated adjoint moves
      // into the cache; the reset adjoint then receives the left seed.
      varVal, cacheAdj := cacheVal, total;
      exprAdj := AddVal(exprAdj, rseed);
      varAdj := AddVal(Zero(varVal), lseed);
    }
  }

  /** Cache requirement of a node: how many values and how many adjoints. */
  datatype SizePack = SizePack(vals: nat, adjs: nat)

  function AddSizes(a: SizePack, b: SizePack): SizePack
  {
    SizePack(a.vals + b.vals, a.adjs + b.adjs)
  }

  predicate SizeLeq(a: SizePack, b: SizePack)
  {
    a.vals <= b.vals && a.adjs <= b.adjs
  }

  /** `EqNode::bind_cache_size`: the expression's root is rebound onto the
      placeholder's storage, so its own slots are given back; the source
      asserts there are that many. */
  function EqBindCacheSize(exprTotal: SizePack, exprSingle: SizePack): (r: SizePack)
    requires SizeLeq(exprSingle, exprTotal)
    ensures AddSizes(r, exprSingle) == exprTotal
  {
    SizePack(exprTotal.vals - exprSingle.vals, exprTotal.adjs - exprSingle.adjs)
  }

  /** `OpEqNode::bind_cache_size`: its own value and adjoint cache of the
      variable's size, plus everything the expression needs. */
  function OpEqBindCacheSize(varSize: nat, exprTotal: SizePack): (r: SizePack)
    ensures SizeLeq(exprTotal, r)
    ensures r.vals - exprTotal.vals == varSize && r.adjs - exprTotal.adjs == varSize
  {
    AddSizes(SizePack(varSize, varSize), exprTotal)
  }

  /** Forward then backward evaluation of a compound assignment leaves the
      variable holding the value it had before, and its adjoint holding the
      seed for that old value. */
  method EvaluateAndDifferentiate(n: OpEqNode, seed: Val)
    requires n.Valid() && SameShape(seed, n.varVal)
    modifies n
    ensures n.Valid() && n.varVal == old(n.varVal) && n.exprVal == old(n.exprVal)
    ensures n.cacheAdj == AddVal(old(n.varAdj), seed)
    ensures n.varAdj == OpEqBlmap(n.kind, n.cacheAdj, n.varVal, n.exprVal)
    ensures n.exprAdj == AddVal(old(n.exprAdj), OpEqBrmap(n.kind, n.cacheAdj, n.varVal, n.exprVal))
  {
    var _ := n.Feval();
    n.Beval(seed);
  }
}
