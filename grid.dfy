/**
  The element-wise array operations that sat_lib.py borrows from numpy, on
  2-D grids: boolean-index assignment (`a[cond] = w`) as a loop that rewrites
  the buffer in place, and the vectorised operators that allocate a new grid
  (`np.zeros_like`, `np.bitwise_and`, `astype`, `*`).
 */
module Grid {

  /**
    The value that `a[hit(a)] = w` leaves in an element that held `v`: `w` when
    the element is selected, and otherwise its own value.
   */
  function AssignedWhere<T>(v: T, hit: T -> bool, w: T): (r: T)
    ensures hit(v) ==> r == w
    ensures r != v ==> hit(v) && r == w
  {
    if hit(v) then w else v
  }

  /**
    Boolean-index assignment `a[hit(a)] = w`. numpy evaluates the selection
    `hit(a)` over the whole buffer before writing, so every element is tested
    against its value from before this assignment.
   */
  method AssignWhere<T>(a: array2<T>, hit: T -> bool, w: T)
    modifies a
    ensures forall i, j :: 0 <= i < a.Length0 && 0 <= j < a.Length1 ==>
      a[i, j] == AssignedWhere(old(a[i, j]), hit, w)
  {
    var i := 0;
    while i < a.Length0
      invariant 0 <= i <= a.Length0
      invariant forall r, c :: 0 <= r < i && 0 <= c < a.Length1 ==>
        a[r, c] == AssignedWhere(old(a[r, c]), hit, w)
      invariant forall r, c :: i <= r < a.Length0 && 0 <= c < a.Length1 ==>
        a[r, c] == old(a[r, c])
    {
      var j := 0;
      while j < a.Length1
        invariant 0 <= j <= a.Length1
        invariant forall r, c :: 0 <= r < i && 0 <= c < a.Length1 ==>
          a[r, c] == AssignedWhere(old(a[r, c]), hit, w)
        invariant forall c :: 0 <= c < j ==> a[i, c] == AssignedWhere(old(a[i, c]), hit, w)
        invariant forall r, c :: i <= r < a.Length0 && 0 <= c < a.Length1 && (r > i || c >= j) ==>
          a[r, c] == old(a[r, c])
      {
        if hit(a[i, j]) {
          a[i, j] := w;
        }
        j := j + 1;
      }
      i := i + 1;
    }
  }

  /** `np.zeros_like(a)` for an 8-bit grid: a new 8-bit grid of the same shape holding 0. */
  method ZerosLike(a: array2<bv8>) returns (z: array2<bv8>)
    ensures fresh(z)
    ensures z.Length0 == a.Length0 && z.Length1 == a.Length1
    ensures forall i, j :: 0 <= i < z.Length0 && 0 <= j < z.Length1 ==> z[i, j] == 0
  {
    z := new bv8[a.Length0, a.Length1]((i, j) => 0);
  }

  /** A vectorised unary operation (`a.astype(...)`): a new grid holding `f` of each element. */
  method MapGrid<A, C>(a: array2<A>, f: A -> C) returns (c: array2<C>)
    ensures fresh(c)
    ensures c.Length0 == a.Length0 && c.Length1 == a.Length1
    ensures forall i, j :: 0 <= i < c.Length0 && 0 <= j < c.Length1 ==> c[i, j] == f(a[i, j])
  {
    c := new C[a.Length0, a.Length1]((i, j) reads a requires 0 <= i < a.Length0 && 0 <= j < a.Length1 => f(a[i, j]));
  }

  /**
    A vectorised binary operation on two grids of one shape (`np.bitwise_and(a, b)`,
    `a * b`): a new grid holding `f` of the corresponding elements.
   */
  method Combine<A, B, C>(a: array2<A>, b: array2<B>, f: (A, B) -> C) returns (c: array2<C>)
    requires a.Length0 == b.Length0 && a.Length1 == b.Length1
    ensures fresh(c)
    ensures c.Length0 == a.Length0 && c.Length1 == a.Length1
    ensures forall i, j :: 0 <= i < c.Length0 && 0 <= j < c.Length1 ==> c[i, j] == f(a[i, j], b[i, j])
  {
    c := new C[a.Length0, a.Length1]((i, j) reads a, b requires 0 <= i < a.Length0 && 0 <= j < a.Length1 =>
      f(a[i, j], b[i, j]));
  }
}
