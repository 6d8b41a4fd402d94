/** The library's small row-major matrix container `ad::Mat<T>`, for
    `T = double`: a resizable buffer `data` with its two dimensions. Entry
    `(r, c)` lives at offset `r * cols + c`. */
module Matrix {
  import opened Numeric

  /** Row-major offset of entry `(r, c)` in a matrix with `cols` columns:
      `r` whole rows, then `c` entries. Written by recursion on the rows so
      that the solver only meets the product through `OffsetIsProduct`. */
  function Offset(r: nat, c: nat, cols: nat): nat
  {
    if r == 0 then c else Offset(r - 1, c, cols) + cols
  }

  lemma {:induction false} OffsetIsProduct(r: nat, c: nat, cols: nat)
    ensures Offset(r, c, cols) == r * cols + c
  {
    if r > 0 {
      OffsetIsProduct(r - 1, c, cols);
    }
  }

  lemma OffsetBound(r: nat, c: nat, rows: nat, cols: nat)
    requires r < rows && c < cols
    ensures Offset(r, c, cols) < rows * cols
  {
    OffsetIsProduct(r, c, cols);
    assert (r + 1) * cols <= rows * cols by {
      MulMonotone(r + 1, rows, cols);
    }
  }

  lemma MulMonotone(a: nat, b: nat, k: nat)
    requires a <= b
    ensures a * k <= b * k
  {
  }

  /** Every in-range offset is reached by exactly one entry: the one given by
      division and remainder by the number of columns. */
  lemma OffsetDecompose(k: nat, rows: nat, cols: nat)
    requires k < rows * cols
    ensures cols > 0 && k / cols < rows && k % cols < cols
    ensures Offset(k / cols, k % cols, cols) == k
  {
    OffsetIsProduct(k / cols, k % cols, cols);
    if cols == 0 {
      assert false;
    }
    if k / cols >= rows {
      MulMonotone(rows, k / cols, cols);
      assert false;
    }
  }

  lemma OffsetInjective(r: nat, c: nat, r': nat, c': nat, cols: nat)
    requires c < cols && c' < cols
    requires Offset(r, c, cols) == Offset(r', c', cols)
    ensures r == r' && c == c'
  {
    var k := Offset(r, c, cols);
    OffsetIsProduct(r, c, cols);
    OffsetIsProduct(r', c', cols);
    DivModUnique(k, r, c, cols);
    DivModUnique(k, r', c', cols);
  }

  lemma DivModUnique(k: nat, q: nat, m: nat, d: nat)
    requires m < d && k == q * d + m
    ensures k / d == q && k % d == m
  {
    var q', m' := k / d, k % d;
    assert k == q' * d + m';
    if q' < q {
      MulMonotone(q' + 1, q, d);
      assert false;
    } else if q < q' {
      MulMonotone(q + 1, q', d);
      assert false;
    }
  }

  /** Where entry `k` of the transpose of a `rows x cols` matrix comes from:
      it is entry `(k % rows, k / rows)` of the original. */
  function TransposedSource(k: nat, rows: nat, cols: nat): (j: nat)
    requires k < rows * cols
    ensures j < rows * cols
  {
    OffsetDecompose(k, cols, rows);
    OffsetBound(k % rows, k / rows, rows, cols);
    Offset(k % rows, k / rows, cols)
  }

  lemma TransposedSourceAt(r: nat, c: nat, rows: nat, cols: nat)
    requires r < rows && c < cols
    ensures Offset(c, r, rows) < rows * cols
    ensures TransposedSource(Offset(c, r, rows), rows, cols) == Offset(r, c, cols)
  {
    OffsetBound(c, r, cols, rows);
    OffsetIsProduct(c, r, rows);
    DivModUnique(Offset(c, r, rows), c, r, rows);
  }

  /** Row-major storage of the transpose of a `rows x cols` matrix stored in
      `d`: entry `(c, r)` of the result is entry `(r, c)` of `d`. */
  function Transposed(d: seq<real>, rows: nat, cols: nat): (t: seq<real>)
    requires |d| == rows * cols
    ensures |t| == |d|
    ensures forall r: nat, c: nat :: r < rows && c < cols ==>
              Offset(c, r, rows) < |t| && Offset(r, c, cols) < |d| &&
              t[Offset(c, r, rows)] == d[Offset(r, c, cols)]
  {
    var t := seq(rows * cols, k requires 0 <= k < rows * cols => d[TransposedSource(k, rows, cols)]);
    forall r: nat, c: nat | r < rows && c < cols
      ensures Offset(c, r, rows) < |t| && Offset(r, c, cols) < |d|
      ensures t[Offset(c, r, rows)] == d[Offset(r, c, cols)]
    {
      OffsetBound(r, c, rows, cols);
      TransposedSourceAt(r, c, rows, cols);
    }
    t
  }

  /** Transposing twice gives the matrix back. */
  lemma TransposedInvolution(d: seq<real>, rows: nat, cols: nat)
    requires |d| == rows * cols
    ensures Transposed(Transposed(d, rows, cols), cols, rows) == d
  {
    var t := Transposed(d, rows, cols);
    var t2 := Transposed(t, cols, rows);
    forall k | 0 <= k < |d|
      ensures t2[k] == d[k]
    {
      OffsetDecompose(k, rows, cols);
      var r, c := k / cols, k % cols;
      assert t2[Offset(r, c, cols)] == t[Offset(c, r, rows)];
    }
  }

  class Mat {
    var data: seq<real>
    var rows: nat
    var cols: nat

    ghost predicate Valid()
      reads this
    {
      |data| == rows * cols
    }

    /** The empty `0 x 0` matrix. */
    constructor Empty()
      ensures Valid() && rows == 0 && cols == 0 && data == []
    {
      data, rows, cols := [], 0, 0;
    }

    /** A `size x size` matrix with every entry `fill`. */
    constructor Square(size: nat, fill: real)
      ensures Valid() && rows == size && cols == size
      ensures forall k :: 0 <= k < |data| ==> data[k] == fill
    {
      data, rows, cols := Consts(size * size, fill), size, size;
    }

    /** A `rows x cols` matrix with every entry `fill`. */
    constructor Init(rows: nat, cols: nat, fill: real)
      ensures Valid() && this.rows == rows && this.cols == cols
      ensures forall k :: 0 <= k < |data| ==> data[k] == fill
    {
      this.data, this.rows, this.cols := Consts(rows * cols, fill), rows, cols;
    }

    /** Entry `(r, c)`. */
    function At(r: nat, c: nat): (v: real)
      reads this
      requires Valid() && r < rows && c < cols
      ensures v in data
    {
      OffsetBound(r, c, rows, cols);
      data[Offset(r, c, cols)]
    }

    /** Assignment through the `operator()` reference: only entry `(r, c)`
        changes. */
    method Set(r: nat, c: nat, v: real)
      requires Valid() && r < rows && c < cols
      modifies this
      ensures Valid() && rows == old(rows) && cols == old(cols)
      ensures At(r, c) == v
      ensures forall r': nat, c': nat :: r' < rows && c' < cols && (r', c') != (r, c) ==>
                At(r', c') == old(At(r', c'))
    {
      OffsetBound(r, c, rows, cols);
      data := data[Offset(r, c, cols) := v];
      forall r': nat, c': nat | r' < rows && c' < cols && (r', c') != (r, c)
        ensures At(r', c') == old(At(r', c'))
      {
        OffsetBound(r', c', rows, cols);
        if Offset(r', c', cols) == Offset(r, c, cols) {
          OffsetInjective(r', c', r, c, cols);
        }
      }
    }

    /** Number of entries. */
    function Size(): (n: nat)
      reads this
      requires Valid()
      ensures n == |data|
    {
      rows * cols
    }

    /** Resize to `r x c` and set every entry to `v`. */
    method Fill(r: nat, c: nat, v: real)
      modifies this
      ensures Valid() && rows == r && cols == c
      ensures forall k :: 0 <= k < |data| ==> data[k] == v
    {
      data, rows, cols := Consts(r * c, v), r, c;
    }

    /** Set every entry to `v`, keeping the dimensions. */
    method FillSame(v: real)
      modifies this
      ensures Valid() && rows == old(rows) && cols == old(cols)
      ensures forall k :: 0 <= k < |data| ==> data[k] == v
    {
      Fill(rows, cols, v);
    }

    method Zeros(r: nat, c: nat)
      modifies this
      ensures Valid() && rows == r && cols == c
      ensures forall k :: 0 <= k < |data| ==> data[k] == 0.0
    {
      Fill(r, c, 0.0);
    }

    method ZerosSame()
      modifies this
      ensures Valid() && rows == old(rows) && cols == old(cols)
      ensures forall k :: 0 <= k < |data| ==> data[k] == 0.0
    {
      Zeros(rows, cols);
    }

    /** A fresh `cols x rows` matrix holding the transpose, filled entry by
        entry in row-major order of the source. */
    method T() returns (m: Mat)
      requires Valid()
      ensures fresh(m) && m.Valid() && m.rows == cols && m.cols == rows
      ensures m.data == Transposed(data, rows, cols)
      ensures forall r: nat, c: nat :: r < rows && c < cols ==> m.At(c, r) == At(r, c)
    {
      m := new Mat.Init(cols, rows, 0.0);
      var r := 0;
      while r < rows
        invariant 0 <= r <= rows
        invariant fresh(m) && m.Valid() && m.rows == cols && m.cols == rows
        invariant forall r': nat, c': nat :: r' < r && c' < cols ==> m.At(c', r') == At(r', c')
      {
        var c := 0;
        while c < cols
          invariant 0 <= c <= cols
          invariant fresh(m) && m.Valid() && m.rows == cols && m.cols == rows
          invariant forall r': nat, c': nat :: r' < r && c' < cols ==> m.At(c', r') == At(r', c')
          invariant forall c': nat :: c' < c ==> m.At(c', r) == At(r, c')
        {
          m.Set(c, r, At(r, c));
          c := c + 1;
        }
        r := r + 1;
      }
      var t := Transposed(data, rows, cols);
      forall k | 0 <= k < |m.data|
        ensures m.data[k] == t[k]
      {
        OffsetDecompose(k, cols, rows);
        var c, r := k / rows, k % rows;
        assert m.At(c, r) == At(r, c);
      }
    }

    /** `operator==`: same dimensions and the same entries. */
    method Equals(other: Mat) returns (same: bool)
      requires Valid() && other.Valid()
      ensures same <==> rows == other.rows && cols == other.cols && data == other.data
    {
      if rows != other.rows || cols != other.cols {
        return false;
      }
      var i := 0;
      while i < |data|
        invariant 0 <= i <= |data|
        invariant data[..i] == other.data[..i]
      {
        if data[i] != other.data[i] {
          return false;
        }
        i := i + 1;
      }
      assert data == data[..i] && other.data == other.data[..i];
      return true;
    }
  }

  /** The transpose round trip of the matrix unit tests: `mat == mat.t().t()`. */
  method TransposeTwice(a: Mat) returns (same: bool)
    requires a.Valid()
    ensures same
  {
    var t := a.T();
    var tt := t.T();
    TransposedInvolution(a.data, a.rows, a.cols);
    same := a.Equals(tt);
  }
}
