/** Products of expressions (`ProdIterNode`), products of the elements of one
    expression (`ProdElemNode`) and the `ad::prod` helpers, for scalar
    factors. The factors are leaves: `vals[k]` is the value of factor `k` and
    `adjs[k]` its adjoint. */
module Prod {

  /** Left-to-right product, the order in which forward evaluation multiplies;
      the empty product is 1. */
  function Product(s: seq<real>): real
  {
    if |s| == 0 then 1.0 else Product(s[..|s| - 1]) * s[|s| - 1]
  }

  /** Product of every entry except the one at position `skip` (of all of
      them when `skip` is out of range): the partial derivative of `Product(s)`
      with respect to `s[skip]`. */
  function ProductSkip(s: seq<real>, skip: int): real
  {
    if |s| == 0 then 1.0
    else ProductSkip(s[..|s| - 1], skip) * (if |s| - 1 == skip then 1.0 else s[|s| - 1])
  }

  lemma {:induction false} ProductSkipOutside(s: seq<real>, skip: int)
    requires skip < 0 || skip >= |s|
    ensures ProductSkip(s, skip) == Product(s)
  {
    if |s| > 0 {
      ProductSkipOutside(s[..|s| - 1], skip);
    }
  }

  /** The product factors through any one of its entries. */
  lemma {:induction false} ProductSplit(s: seq<real>, k: nat)
    requires k < |s|
    ensures Product(s) == ProductSkip(s, k) * s[k]
  {
    var init := s[..|s| - 1];
    if k == |s| - 1 {
      ProductSkipOutside(init, k);
    } else {
      ProductSplit(init, k);
      assert init[k] == s[k];
    }
  }

  /** Dividing the product by a non-zero entry gives the product of the
      others, which is what backward evaluation relies on. */
  lemma ProductDivide(s: seq<real>, k: nat)
    requires k < |s| && s[k] != 0.0
    ensures Product(s) / s[k] == ProductSkip(s, k)
  {
    DivideFactored(s, k, Product(s), ProductSkip(s, k), s[k]);
  }

  /** `ProductDivide` on the values of its terms. */
  lemma DivideFactored(s: seq<real>, k: nat, p: real, a: real, b: real)
    requires k < |s| && b == s[k] && b != 0.0 && p == Product(s) && a == ProductSkip(s, k)
    ensures p / b == a
  {
    ProductSplit(s, k);
    CancelFactor(p, a, b);
  }

  lemma CancelFactor(p: real, a: real, b: real)
    requires b != 0.0 && p == a * b
    ensures p / b == a
  {
  }

  /** A zero entry makes the whole product zero. */
  lemma ProductZero(s: seq<real>, k: nat)
    requires k < |s| && s[k] == 0.0
    ensures Product(s) == 0.0
  {
    ProductSplit(s, k);
  }

  /** The multiplier of the seed for factor `idx`: the product divided by
      the factor when it is non-zero, else the product of the other factors
      recomputed one by one. Either way it is the product of the others. */
  method SeedMultiplier(vals: array<real>, value: real, idx: nat) returns (adj: real)
    requires idx < vals.Length && value == Product(vals[..])
    ensures adj == ProductSkip(vals[..], idx)
  {
    adj := 1.0;
    if vals[idx] == 0.0 {
      var k := 0;
      while k < vals.Length
        invariant 0 <= k <= vals.Length
        invariant adj == ProductSkip(vals[..k], idx)
      {
        assert vals[..k + 1][..k] == vals[..k];
        if k != idx {
          adj := adj * vals[k];
        }
        k := k + 1;
      }
      assert vals[..k] == vals[..];
    } else {
      ProductDivide(vals[..], idx);
      adj := value / vals[idx];
    }
  }

  /** Product of a list of expressions. */
  class ProdIterNode {
    const vals: array<real>
    const adjs: array<real>
    var value: real

    ghost predicate Valid()
      reads this
    {
      vals.Length == adjs.Length && vals != adjs
    }

    constructor (vals: array<real>, adjs: array<real>)
      requires vals.Length == adjs.Length && vals != adjs
      ensures Valid() && this.vals == vals && this.adjs == adjs && value == 0.0
    {
      this.vals, this.adjs, value := vals, adjs, 0.0;
    }

    /** Forward evaluation starts from 1 and multiplies the factors in from
        left to right. */
    method Feval() returns (v: real)
      requires Valid()
      modifies this
      ensures v == value == Product(vals[..])
    {
      value := 1.0;
      var k := 0;
      while k < vals.Length
        invariant 0 <= k <= vals.Length
        invariant value == Product(vals[..k])
      {
        assert vals[..k + 1][..k] == vals[..k];
        value := value * vals[k];
        k := k + 1;
      }
      assert vals[..k] == vals[..];
      v := value;
    }

    /** Backward evaluation after forward evaluation, from the last factor to
        the first: each factor's adjoint receives the seed times the product
        of the other factors, also when some factors are zero. A zero seed or
        an empty list changes nothing. */
    method Beval(seed: real)
      requires Valid() && value == Product(vals[..])
      modifies adjs
      ensures seed == 0.0 ==> adjs[..] == old(adjs[..])
      ensures seed != 0.0 ==> forall k :: 0 <= k < adjs.Length ==>
                adjs[k] == old(adjs[k]) + seed * ProductSkip(vals[..], k)
    {
      if seed == 0.0 || vals.Length == 0 {
        return;
      }
      var idx: int := vals.Length - 1;
      while idx >= 0
        invariant -1 <= idx < vals.Length
        invariant forall k :: idx < k < adjs.Length ==>
                    adjs[k] == old(adjs[k]) + seed * ProductSkip(vals[..], k)
        invariant forall k :: 0 <= k <= idx ==> adjs[k] == old(adjs[k])
      {
        var adj := SeedMultiplier(vals, value, idx);
        adjs[idx] := adjs[idx] + seed * adj;
        idx := idx - 1;
      }
    }
  }

  /** Product of the elements of one vector expression. */
  class ProdElemNode {
    const vals: array<real>
    const adjs: array<real>
    var value: real

    ghost predicate Valid()
      reads this
    {
      vals.Length == adjs.Length && vals != adjs
    }

    constructor (vals: array<real>, adjs: array<real>)
      requires vals.Length == adjs.Length && vals != adjs
      ensures Valid() && this.vals == vals && this.adjs == adjs && value == 0.0
    {
      this.vals, this.adjs, value := vals, adjs, 0.0;
    }

    /** Forward evaluation: the product of the elements. */
    method Feval() returns (v: real)
      requires Valid()
      modifies this
      ensures v == value == Product(vals[..])
    {
      value := Product(vals[..]);
      v := value;
    }

    /** Backward evaluation after forward evaluation, element by element in
        storage order: each element's adjoint receives the seed times the
        product of the other elements. */
    method Beval(seed: real)
      requires Valid() && value == Product(vals[..])
      modifies adjs
      ensures seed == 0.0 ==> adjs[..] == old(adjs[..])
      ensures seed != 0.0 ==> forall k :: 0 <= k < adjs.Length ==>
                adjs[k] == old(adjs[k]) + seed * ProductSkip(vals[..], k)
    {
      if seed == 0.0 {
        return;
      }
      var l := 0;
      while l < vals.Length
        invariant 0 <= l <= vals.Length
        invariant forall k :: 0 <= k < l ==>
                    adjs[k] == old(adjs[k]) + seed * ProductSkip(vals[..], k)
        invariant forall k :: l <= k < adjs.Length ==> adjs[k] == old(adjs[k])
      {
        var adj := SeedMultiplier(vals, value, l);
        adjs[l] := adjs[l] + seed * adj;
        l := l + 1;
      }
    }
  }

  /** `ad::prod(begin, end, f)` when every `f(x)` is a constant: folded at
      construction time, and an empty range gives the constant 0. */
  function ProdOfConstants(fs: seq<real>): (r: real)
    ensures |fs| > 0 ==> r == Product(fs)
    ensures |fs| == 0 ==> r == 0.0
  {
    if |fs| == 0 then 0.0
    else
      var p := fs[0];
      ProdFoldFrom(fs, 1, p)
  }

  /** The left fold `prod *= f(x)` over `fs[from..]`, starting at `acc`. */
  function ProdFoldFrom(fs: seq<real>, from: nat, acc: real): (r: real)
    requires 1 <= from <= |fs| && acc == Product(fs[..from])
    ensures r == Product(fs)
    decreases |fs| - from
  {
    if from == |fs| then
      assert fs[..from] == fs;
      acc
    else
      assert fs[..from + 1][..from] == fs[..from];
      ProdFoldFrom(fs, from + 1, acc * fs[from])
  }

  /** The empty product differs between the two paths of `ad::prod`: a
      non-constant empty range builds a node whose value is 1, while an empty
      range of constants folds to 0. On a non-empty range they agree. */
  lemma EmptyProductPaths(fs: seq<real>)
    ensures |fs| == 0 ==> Product(fs) == 1.0 && ProdOfConstants(fs) == 0.0
    ensures |fs| > 0 ==> ProdOfConstants(fs) == Product(fs)
  {
  }
}
