/** The leaves of an expression tree (`ad::VarView`): views of a variable's
    value buffer and of its adjoint buffer. A view does not own its buffers;
    every copy of a view writes into the same adjoint storage, which is why
    the buffers are arrays here. */
module VarViews {

  /** A scalar variable: one value and one adjoint. */
  class ScalarVar {
    var value: real
    var adj: real

    constructor (value: real)
      ensures this.value == value && adj == 0.0
    {
      this.value, adj := value, 0.0;
    }

    /** Backward evaluation adds the seed to the adjoint and changes nothing
        else. */
    method Beval(seed: real)
      modifies this
      ensures adj == old(adj) + seed && value == old(value)
    {
      adj := adj + seed;
    }

    method ResetAdj()
      modifies this
      ensures adj == 0.0 && value == old(value)
    {
      adj := 0.0;
    }
  }

  /** A column vector variable. */
  class VecVar {
    const val: array<real>
    const adj: array<real>

    ghost predicate Valid()
      reads this
    {
      val.Length == adj.Length && val != adj
    }

    constructor (val: array<real>, adj: array<real>)
      requires val.Length == adj.Length && val != adj
      ensures Valid() && this.val == val && this.adj == adj
    {
      this.val, this.adj := val, adj;
    }

    /** Backward evaluation of component `i`: only adjoint `i` grows by the
        seed. */
    method Beval(seed: real, i: nat)
      requires Valid() && i < adj.Length
      modifies adj
      ensures adj[..] == old(adj[..])[i := old(adj[i]) + seed]
    {
      adj[i] := adj[i] + seed;
    }

    method ResetAdj()
      requires Valid()
      modifies adj
      ensures forall i :: 0 <= i < adj.Length ==> adj[i] == 0.0
    {
      forall i | 0 <= i < adj.Length {
        adj[i] := 0.0;
      }
    }
  }

  /** A general matrix variable. */
  class MatVar {
    const val: array2<real>
    const adj: array2<real>

    ghost predicate Valid()
      reads this
    {
      val.Length0 == adj.Length0 && val.Length1 == adj.Length1 && val != adj
    }

    constructor (val: array2<real>, adj: array2<real>)
      requires val.Length0 == adj.Length0 && val.Length1 == adj.Length1 && val != adj
      ensures Valid() && this.val == val && this.adj == adj
    {
      this.val, this.adj := val, adj;
    }

    /** Backward evaluation of entry `(i, j)`: only that adjoint grows. */
    method Beval(seed: real, i: nat, j: nat)
      requires Valid() && i < adj.Length0 && j < adj.Length1
      modifies adj
      ensures adj[i, j] == old(adj[i, j]) + seed
      ensures forall r, c :: 0 <= r < adj.Length0 && 0 <= c < adj.Length1 && (r, c) != (i, j) ==>
                adj[r, c] == old(adj[r, c])
    {
      adj[i, j] := adj[i, j] + seed;
    }

    method ResetAdj()
      requires Valid()
      modifies adj
      ensures forall r, c :: 0 <= r < adj.Length0 && 0 <= c < adj.Length1 ==> adj[r, c] == 0.0
    {
      forall r, c | 0 <= r < adj.Length0 && 0 <= c < adj.Length1 {
        adj[r, c] := 0.0;
      }
    }
  }

  /** A self-adjoint (symmetric) matrix variable of which only the lower
      triangle is meaningful. */
  class SelfAdjVar {
    const val: array2<real>
    const adj: array2<real>

    ghost predicate Valid()
      reads this
    {
      val.Length0 == val.Length1 && adj.Length0 == val.Length0 &&
      adj.Length1 == val.Length1 && val != adj
    }

    constructor (val: array2<real>, adj: array2<real>)
      requires val.Length0 == val.Length1 && adj.Length0 == val.Length0
      requires adj.Length1 == val.Length1 && val != adj
      ensures Valid() && this.val == val && this.adj == adj
    {
      this.val, this.adj := val, adj;
    }

    ghost predicate Symmetric()
      reads this, val
      requires Valid()
    {
      forall i, j :: 0 <= i < val.Length0 && 0 <= j < val.Length0 ==> val[i, j] == val[j, i]
    }

    /** Forward evaluation completes the value from its lower triangle: the
        lower triangle is kept, the upper one becomes its mirror, so the value
        is symmetric afterwards, and a value that is already symmetric is
        left as it is. */
    method Feval()
      requires Valid()
      modifies val
      ensures Symmetric()
      ensures forall i, j :: 0 <= j <= i < val.Length0 ==> val[i, j] == old(val[i, j])
      ensures forall i, j :: 0 <= i < j < val.Length0 ==> val[i, j] == old(val[j, i])
      ensures old(Symmetric()) ==> forall i, j :: 0 <= i < val.Length0 && 0 <= j < val.Length0 ==>
                val[i, j] == old(val[i, j])
    {
      forall i, j | 0 <= i < j < val.Length0 {
        val[i, j] := val[j, i];
      }
    }

    /** Backward evaluation of entry `(i, j)` goes to the lower-triangle
        entry: the seed of `(i, j)` and the seed of `(j, i)` land in the same
        place, and the strict upper triangle of the adjoint never changes. */
    method Beval(seed: real, i: nat, j: nat)
      requires Valid() && i < adj.Length0 && j < adj.Length0
      modifies adj
      ensures i >= j ==> adj[i, j] == old(adj[i, j]) + seed
      ensures i < j ==> adj[j, i] == old(adj[j, i]) + seed
      ensures forall r, c ::
                0 <= r < adj.Length0 && 0 <= c < adj.Length0 && (r, c) != (i, j) && (r, c) != (j, i) ==>
                adj[r, c] == old(adj[r, c])
      ensures forall r, c :: 0 <= r < c < adj.Length0 ==> adj[r, c] == old(adj[r, c])
    {
      if i >= j {
        adj[i, j] := adj[i, j] + seed;
      } else {
        adj[j, i] := adj[j, i] + seed;
      }
    }

    method ResetAdj()
      requires Valid()
      modifies adj
      ensures forall r, c :: 0 <= r < adj.Length0 && 0 <= c < adj.Length1 ==> adj[r, c] == 0.0
    {
      forall r, c | 0 <= r < adj.Length0 && 0 <= c < adj.Length1 {
        adj[r, c] := 0.0;
      }
    }
  }
}
