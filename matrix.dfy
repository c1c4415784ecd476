// The generic R×C matrix of src/geometry/matrix/: construction, element
// access, row-major iteration, elementwise and scalar arithmetic, and the
// matrix product.  A `Matrix<T, R, C>` is a Copy value, so the model keeps it
// as a sequence of rows; the `*Assign` operators and `for_each`, which the
// source runs on a place, are methods over an `array2` they modify.

module Matrix {
  import opened Numeric

  type Mat = seq<seq<real>>

  /** `m` has `r` rows of `c` elements each. */
  predicate Shape(m: Mat, r: nat, c: nat)
  {
    |m| == r && forall i :: 0 <= i < r ==> |m[i]| == c
  }

  /** The current contents of an array that stands for a matrix place. */
  function Elements(a: array2<real>): (m: Mat)
    reads a
    ensures Shape(m, a.Length0, a.Length1)
    ensures forall i, j :: 0 <= i < a.Length0 && 0 <= j < a.Length1 ==> m[i][j] == a[i, j]
  {
    seq(a.Length0, i requires 0 <= i < a.Length0 reads a =>
      seq(a.Length1, j requires 0 <= j < a.Length1 reads a => a[i, j]))
  }

  // ---------------------------------------------------------------- mat.rs

  /** `Matrix::default()`: every element is `T::default()`. */
  function Default(r: nat, c: nat): (m: Mat)
    ensures Shape(m, r, c)
    ensures forall i, j :: 0 <= i < r && 0 <= j < c ==> m[i][j] == 0.0
  {
    seq(r, _ => seq(c, _ => 0.0))
  }

  function Map(m: Mat, f: real -> real): (r: Mat)
    ensures |r| == |m|
    ensures forall i :: 0 <= i < |m| ==> |r[i]| == |m[i]|
  {
    seq(|m|, i requires 0 <= i < |m| => seq(|m[i]|, j requires 0 <= j < |m[i]| => f(m[i][j])))
  }

  /** `map` applies `f` to every element and keeps each result at its position. */
  lemma MapAt(m: Mat, f: real -> real, r: nat, c: nat, i: nat, j: nat)
    requires Shape(m, r, c) && i < r && j < c
    ensures Shape(Map(m, f), r, c) && Map(m, f)[i][j] == f(m[i][j])
  {
  }

  /** `for_each`: rewrites every element of the place through `f`, visiting rows in order. */
  method ForEach(a: array2<real>, f: real -> real)
    modifies a
    ensures Elements(a) == Map(old(Elements(a)), f)
  {
    ghost var was := Elements(a);
    for i := 0 to a.Length0
      invariant forall k, l :: 0 <= k < i && 0 <= l < a.Length1 ==> a[k, l] == f(was[k][l])
      invariant forall k, l :: i <= k < a.Length0 && 0 <= l < a.Length1 ==> a[k, l] == was[k][l]
    {
      for j := 0 to a.Length1
        invariant forall k, l :: 0 <= k < i && 0 <= l < a.Length1 ==> a[k, l] == f(was[k][l])
        invariant forall l :: 0 <= l < j ==> a[i, l] == f(was[i][l])
        invariant forall k, l :: (i < k < a.Length0 || (k == i && j <= l)) && 0 <= l < a.Length1 ==> a[k, l] == was[k][l]
      {
        a[i, j] := f(a[i, j]);
      }
    }
    assert Elements(a) == Map(was, f) by {
      forall i | 0 <= i < a.Length0 ensures Elements(a)[i] == Map(was, f)[i] {
      }
    }
  }

  /** `iter` and `into_iter`: the elements in row-major order. */
  function Flatten(m: Mat): seq<real>
  {
    if |m| == 0 then [] else m[0] + Flatten(m[1..])
  }

  lemma MulStep(i: nat, c: nat)
    requires i > 0
    ensures i * c == (i - 1) * c + c
  {
  }

  lemma {:induction false} FlattenLength(m: Mat, r: nat, c: nat)
    requires Shape(m, r, c)
    ensures |Flatten(m)| == r * c
  {
    if r > 0 {
      FlattenLength(m[1..], r - 1, c);
      MulStep(r, c);
    }
  }

  /** Element (i, j) is the (i·C + j)-th one that `iter` yields. */
  lemma {:induction false} FlattenAt(m: Mat, r: nat, c: nat, i: nat, j: nat)
    requires Shape(m, r, c) && i < r && j < c
    ensures i * c + j < |Flatten(m)| && Flatten(m)[i * c + j] == m[i][j]
  {
    FlattenLength(m, r, c);
    if i == 0 {
      assert Flatten(m) == m[0] + Flatten(m[1..]);
    } else {
      FlattenAt(m[1..], r - 1, c, i - 1, j);
      MulStep(i, c);
      assert Flatten(m) == m[0] + Flatten(m[1..]);
      assert m[1..][i - 1] == m[i];
    }
  }

  /** `Index<usize>`: `m[r]` is row `r`; an index past the last row panics (`None`). */
  function Row(m: Mat, r: nat): (o: Option<seq<real>>)
    ensures o.Some? <==> r < |m|
    ensures o.Some? ==> o.value == m[r]
  {
    if r < |m| then Some(m[r]) else None
  }

  /** `IndexMut<usize>` followed by an element write: only that element changes. */
  function SetAt(m: Mat, r: nat, c: nat, x: real): (o: Option<Mat>)
    ensures o.Some? <==> r < |m| && c < |m[r]|
    ensures o.Some? ==> (|o.value| == |m|
      && (forall i :: 0 <= i < |m| && i != r ==> o.value[i] == m[i])
      && |o.value[r]| == |m[r]|
      && (forall j :: 0 <= j < |m[r]| && j != c ==> o.value[r][j] == m[r][j])
      && o.value[r][c] == x)
  {
    if r < |m| && c < |m[r]| then Some(m[r := m[r][c := x]]) else None
  }

  // -------------------------------------------- addition.rs, subtraction.rs

  function AddReal(x: real, y: real): real { x + y }
  function SubReal(x: real, y: real): real { x - y }

  /** Elementwise combination of two matrices of the same shape. */
  function ZipWith(a: Mat, b: Mat, f: (real, real) -> real): (r: Mat)
    requires |b| == |a| && forall i :: 0 <= i < |a| ==> |b[i]| == |a[i]|
    ensures |r| == |a| && forall i :: 0 <= i < |a| ==> |r[i]| == |a[i]|
    ensures forall i, j :: 0 <= i < |a| && 0 <= j < |a[i]| ==> r[i][j] == f(a[i][j], b[i][j])
  {
    seq(|a|, i requires 0 <= i < |a| => seq(|a[i]|, j requires 0 <= j < |a[i]| => f(a[i][j], b[i][j])))
  }

  function Sum(a: Mat, b: Mat): Mat
    requires |b| == |a| && forall i :: 0 <= i < |a| ==> |b[i]| == |a[i]|
  {
    ZipWith(a, b, AddReal)
  }

  function Difference(a: Mat, b: Mat): Mat
    requires |b| == |a| && forall i :: 0 <= i < |a| ==> |b[i]| == |a[i]|
  {
    ZipWith(a, b, SubReal)
  }

  /** A fresh place holding `m`: the copy `let mut mat = *self` makes. */
  method Place(m: Mat, r: nat, c: nat) returns (a: array2<real>)
    requires Shape(m, r, c)
    ensures fresh(a) && a.Length0 == r && a.Length1 == c
    ensures Elements(a) == m
  {
    a := new real[r, c];
    for i := 0 to r
      invariant forall k, l :: 0 <= k < i && 0 <= l < c ==> a[k, l] == m[k][l]
    {
      for j := 0 to c
        invariant forall k, l :: 0 <= k < i && 0 <= l < c ==> a[k, l] == m[k][l]
        invariant forall l :: 0 <= l < j ==> a[i, l] == m[i][l]
      {
        a[i, j] := m[i][j];
      }
    }
    assert Elements(a) == m by {
      forall i | 0 <= i < r ensures Elements(a)[i] == m[i] {
      }
    }
  }

  /** `self.iter_mut().zip(rhs.iter()).for_each(...)`: combine `rhs` into the place elementwise. */
  method ZipAssign(a: array2<real>, rhs: Mat, f: (real, real) -> real)
    requires Shape(rhs, a.Length0, a.Length1)
    modifies a
    ensures Elements(a) == ZipWith(old(Elements(a)), rhs, f)
  {
    ghost var was := Elements(a);
    for i := 0 to a.Length0
      invariant forall k, l :: 0 <= k < i && 0 <= l < a.Length1 ==> a[k, l] == f(was[k][l], rhs[k][l])
      invariant forall k, l :: i <= k < a.Length0 && 0 <= l < a.Length1 ==> a[k, l] == was[k][l]
    {
      for j := 0 to a.Length1
        invariant forall k, l :: 0 <= k < i && 0 <= l < a.Length1 ==> a[k, l] == f(was[k][l], rhs[k][l])
        invariant forall l :: 0 <= l < j ==> a[i, l] == f(was[i][l], rhs[i][l])
        invariant forall k, l :: (i < k < a.Length0 || (k == i && j <= l)) && 0 <= l < a.Length1 ==> a[k, l] == was[k][l]
      {
        a[i, j] := f(a[i, j], rhs[i][j]);
      }
    }
    assert Elements(a) == ZipWith(was, rhs, f) by {
      forall i | 0 <= i < a.Length0 ensures Elements(a)[i] == ZipWith(was, rhs, f)[i] {
      }
    }
  }

  /** `a += b`. */
  method AddAssign(a: array2<real>, b: Mat)
    requires Shape(b, a.Length0, a.Length1)
    modifies a
    ensures Elements(a) == Sum(old(Elements(a)), b)
  {
    ZipAssign(a, b, AddReal);
  }

  /** `a -= b`. */
  method SubAssign(a: array2<real>, b: Mat)
    requires Shape(b, a.Length0, a.Length1)
    modifies a
    ensures Elements(a) == Difference(old(Elements(a)), b)
  {
    ZipAssign(a, b, SubReal);
  }

  /** `a + b` (and `&a + b`): adds into a copy of `a`, so neither operand changes. */
  method Add(a: Mat, b: Mat, r: nat, c: nat) returns (s: Mat)
    requires Shape(a, r, c) && Shape(b, r, c)
    ensures Shape(s, r, c)
    ensures forall i, j :: 0 <= i < r && 0 <= j < c ==> s[i][j] == a[i][j] + b[i][j]
    ensures s == Sum(a, b)
  {
    var place := Place(a, r, c);
    AddAssign(place, b);
    s := Elements(place);
  }

  /** `a - b` (and `&a - b`): subtracts into a copy of `a`. */
  method Subtract(a: Mat, b: Mat, r: nat, c: nat) returns (s: Mat)
    requires Shape(a, r, c) && Shape(b, r, c)
    ensures Shape(s, r, c)
    ensures forall i, j :: 0 <= i < r && 0 <= j < c ==> s[i][j] == a[i][j] - b[i][j]
    ensures s == Difference(a, b)
  {
    var place := Place(a, r, c);
    SubAssign(place, b);
    s := Elements(place);
  }

  /** Subtraction undoes addition, and addition undoes subtraction. */
  lemma SumDifferenceInverse(a: Mat, b: Mat, r: nat, c: nat)
    requires Shape(a, r, c) && Shape(b, r, c)
    ensures Difference(Sum(a, b), b) == a
    ensures Sum(Difference(a, b), b) == a
  {
    assert forall i :: 0 <= i < r ==> Difference(Sum(a, b), b)[i] == a[i];
    assert forall i :: 0 <= i < r ==> Sum(Difference(a, b), b)[i] == a[i];
  }

  lemma SumCommutes(a: Mat, b: Mat, r: nat, c: nat)
    requires Shape(a, r, c) && Shape(b, r, c)
    ensures Sum(a, b) == Sum(b, a)
  {
    assert forall i :: 0 <= i < r ==> Sum(a, b)[i] == Sum(b, a)[i];
  }

  // --------------------------------- multiplication.rs (scalar), divisision.rs

  /** `m * Scalar(s)`: `map` with `x * s`. */
  function Scaled(m: Mat, s: real): (r: Mat)
    ensures |r| == |m| && forall i :: 0 <= i < |m| ==> |r[i]| == |m[i]|
    ensures forall i, j :: 0 <= i < |m| && 0 <= j < |m[i]| ==> r[i][j] == m[i][j] * s
  {
    Map(m, x => x * s)
  }

  /** `m / Scalar(s)`: `map` with `x / s`. */
  function Divided(m: Mat, s: real): (r: Mat)
    requires s != 0.0
    ensures |r| == |m| && forall i :: 0 <= i < |m| ==> |r[i]| == |m[i]|
    ensures forall i, j :: 0 <= i < |m| && 0 <= j < |m[i]| ==> r[i][j] == m[i][j] / s
  {
    Map(m, x => x / s)
  }

  /** `m *= Scalar(s)`: `for_each` with `*= s`, in place. */
  method ScaleAssign(a: array2<real>, s: real)
    modifies a
    ensures Elements(a) == Scaled(old(Elements(a)), s)
  {
    ghost var was := Elements(a);
    ForEach(a, x => x * s);
    assert Elements(a) == Scaled(was, s) by {
      forall i | 0 <= i < a.Length0 ensures Elements(a)[i] == Scaled(was, s)[i] {
      }
    }
  }

  /** `m /= Scalar(s)`: `for_each` with `/= s`, in place. */
  method DivAssign(a: array2<real>, s: real)
    requires s != 0.0
    modifies a
    ensures Elements(a) == Divided(old(Elements(a)), s)
  {
    ghost var was := Elements(a);
    ForEach(a, x => x / s);
    assert Elements(a) == Divided(was, s) by {
      forall i | 0 <= i < a.Length0 ensures Elements(a)[i] == Divided(was, s)[i] {
      }
    }
  }

  /** Dividing by a scalar undoes multiplying by it. */
  lemma DividedUndoesScaled(m: Mat, s: real)
    requires s != 0.0
    ensures Divided(Scaled(m, s), s) == m
  {
    forall i, j | 0 <= i < |m| && 0 <= j < |m[i]| ensures Divided(Scaled(m, s), s)[i][j] == m[i][j] {
      assert m[i][j] * s / s == m[i][j];
    }
    assert forall i :: 0 <= i < |m| ==> Divided(Scaled(m, s), s)[i] == m[i];
  }

  // ----------------------------------------- multiplication.rs (matrix × matrix)

  /** Σ_{k<n} u[k]·v[k], folded from zero in index order as the source's `fold` does. */
  function Dot(u: seq<real>, v: seq<real>, n: nat): real
    requires n <= |u| && n <= |v|
  {
    if n == 0 then 0.0 else Dot(u, v, n - 1) + u[n - 1] * v[n - 1]
  }

  /** A four-term dot product written out, as the fixed-size 4×4 code spells it. */
  lemma DotFour(u: seq<real>, v: seq<real>)
    requires |u| == 4 && |v| == 4
    ensures Dot(u, v, 4) == u[0] * v[0] + u[1] * v[1] + u[2] * v[2] + u[3] * v[3]
  {
    assert Dot(u, v, 1) == u[0] * v[0];
    assert Dot(u, v, 2) == u[0] * v[0] + u[1] * v[1];
    assert Dot(u, v, 3) == u[0] * v[0] + u[1] * v[1] + u[2] * v[2];
  }

  function Col(m: Mat, j: nat): (col: seq<real>)
    requires forall i :: 0 <= i < |m| ==> j < |m[i]|
    ensures |col| == |m| && forall i :: 0 <= i < |m| ==> col[i] == m[i][j]
  {
    seq(|m|, i requires 0 <= i < |m| => m[i][j])
  }

  /** The row vector `u` (1×n) times the n×p matrix `b`. */
  function RowTimes(u: seq<real>, b: Mat, n: nat, p: nat): (r: seq<real>)
    requires |u| == n && Shape(b, n, p)
    ensures |r| == p
  {
    seq(p, j requires 0 <= j < p => Dot(u, Col(b, j), n))
  }

  /** (m×n)·(n×p): entry (i, j) is Σ_k a[i][k]·b[k][j]. */
  function Product(a: Mat, b: Mat, m: nat, n: nat, p: nat): (r: Mat)
    requires Shape(a, m, n) && Shape(b, n, p)
    ensures Shape(r, m, p)
  {
    seq(m, i requires 0 <= i < m => RowTimes(a[i], b, n, p))
  }

  /** Matrix × matrix: fills a default matrix in nested loops, each entry being the fold
      `Dot` of a row of a with a column of b. */
  method Multiply(a: Mat, b: Mat, m: nat, n: nat, p: nat) returns (r: Mat)
    requires Shape(a, m, n) && Shape(b, n, p)
    ensures Shape(r, m, p)
    ensures forall i, j :: 0 <= i < m && 0 <= j < p ==> r[i][j] == Dot(a[i], Col(b, j), n)
    ensures r == Product(a, b, m, n, p)
  {
    var mat := Place(Default(m, p), m, p);
    for i := 0 to m
      invariant forall k, l :: 0 <= k < i && 0 <= l < p ==> mat[k, l] == Dot(a[k], Col(b, l), n)
    {
      for j := 0 to p
        invariant forall k, l :: 0 <= k < i && 0 <= l < p ==> mat[k, l] == Dot(a[k], Col(b, l), n)
        invariant forall l :: 0 <= l < j ==> mat[i, l] == Dot(a[i], Col(b, l), n)
      {
        mat[i, j] := Dot(a[i], Col(b, j), n);
      }
    }
    r := Elements(mat);
    assert r == Product(a, b, m, n, p) by {
      forall i | 0 <= i < m ensures r[i] == Product(a, b, m, n, p)[i] {
      }
    }
  }

  /** `self *= rhs` with a square `rhs`: the product goes into a fresh matrix first and
      then replaces `self`, so every entry is computed from the old `self`. */
  method MulAssign(a: array2<real>, rhs: Mat)
    requires Shape(rhs, a.Length1, a.Length1)
    modifies a
    ensures Elements(a) == Product(old(Elements(a)), rhs, a.Length0, a.Length1, a.Length1)
  {
    var mat := Multiply(Elements(a), rhs, a.Length0, a.Length1, a.Length1);
    for i := 0 to a.Length0
      invariant forall k, l :: 0 <= k < i && 0 <= l < a.Length1 ==> a[k, l] == mat[k][l]
    {
      for j := 0 to a.Length1
        invariant forall k, l :: 0 <= k < i && 0 <= l < a.Length1 ==> a[k, l] == mat[k][l]
        invariant forall l :: 0 <= l < j ==> a[i, l] == mat[i][l]
      {
        a[i, j] := mat[i][j];
      }
    }
    assert Elements(a) == mat by {
      forall i | 0 <= i < a.Length0 ensures Elements(a)[i] == mat[i] {
      }
    }
  }

  // ------------------------------------------------------ algebra of Product

  function Identity(n: nat): (m: Mat)
    ensures Shape(m, n, n)
  {
    seq(n, i => seq(n, j => if i == j then 1.0 else 0.0))
  }

  lemma {:induction false} DotScaleAdd(x: seq<real>, y: seq<real>, z: seq<real>, c: seq<real>, s: real, q: nat)
    requires q <= |x| && q <= |y| && q <= |z| && q <= |c|
    requires forall k :: 0 <= k < q ==> z[k] == x[k] + s * y[k]
    ensures Dot(z, c, q) == Dot(x, c, q) + s * Dot(y, c, q)
  {
    if q > 0 {
      DotScaleAdd(x, y, z, c, s, q - 1);
    }
  }

  /** The row vector u·a with only the first t terms of each dot product summed. */
  function PartialRowTimes(u: seq<real>, a: Mat, n: nat, q: nat, t: nat): (r: seq<real>)
    requires |u| == n && Shape(a, n, q) && t <= n
    ensures |r| == q && forall j :: 0 <= j < q ==> r[j] == Dot(u, Col(a, j), t)
  {
    seq(q, j requires 0 <= j < q => Dot(u, Col(a, j), t))
  }

  /** The column vector a·c. */
  function ColumnDots(a: Mat, c: seq<real>, n: nat, q: nat): (r: seq<real>)
    requires Shape(a, n, q) && |c| == q
    ensures |r| == n && forall l :: 0 <= l < n ==> r[l] == Dot(a[l], c, q)
  {
    seq(n, l requires 0 <= l < n => Dot(a[l], c, q))
  }

  /** Σ_k (Σ_{l<t} u[l]·a[l][k])·c[k] is Σ_{l<t} u[l]·(Σ_k a[l][k]·c[k]). */
  lemma {:induction false} DotExchange(u: seq<real>, a: Mat, c: seq<real>, n: nat, q: nat, t: nat)
    requires |u| == n && Shape(a, n, q) && |c| == q && t <= n
    ensures Dot(PartialRowTimes(u, a, n, q, t), c, q) == Dot(u, ColumnDots(a, c, n, q), t)
  {
    var front := PartialRowTimes(u, a, n, q, t);
    if t == 0 {
      DotOfZeros(front, c, q);
    } else {
      var prev := PartialRowTimes(u, a, n, q, t - 1);
      PartialRowTimesStep(u, a, n, q, t);
      DotExchange(u, a, c, n, q, t - 1);
      DotAddScaled(prev, a[t - 1], c, u[t - 1], q);
      assert ColumnDots(a, c, n, q)[t - 1] == Dot(a[t - 1], c, q);
    }
  }

  /** x + s·y on the first q entries. */
  function AddScaled(x: seq<real>, s: real, y: seq<real>, q: nat): (r: seq<real>)
    requires q <= |x| && q <= |y|
    ensures |r| == q
  {
    seq(q, k requires 0 <= k < q => x[k] + s * y[k])
  }

  lemma DotAddScaled(x: seq<real>, y: seq<real>, c: seq<real>, s: real, q: nat)
    requires q <= |x| && q <= |y| && q <= |c|
    ensures Dot(AddScaled(x, s, y, q), c, q) == Dot(x, c, q) + s * Dot(y, c, q)
  {
    DotScaleAdd(x, y, AddScaled(x, s, y, q), c, s, q);
  }

  /** One more term: the partial row grows by u[t-1] times row t-1 of a. */
  lemma PartialRowTimesStep(u: seq<real>, a: Mat, n: nat, q: nat, t: nat)
    requires |u| == n && Shape(a, n, q) && 0 < t <= n
    ensures PartialRowTimes(u, a, n, q, t) == AddScaled(PartialRowTimes(u, a, n, q, t - 1), u[t - 1], a[t - 1], q)
  {
    forall k | 0 <= k < q
      ensures PartialRowTimes(u, a, n, q, t)[k] == AddScaled(PartialRowTimes(u, a, n, q, t - 1), u[t - 1], a[t - 1], q)[k]
    {
      assert Col(a, k)[t - 1] == a[t - 1][k];
    }
  }

  lemma {:induction false} DotOfZeros(z: seq<real>, c: seq<real>, q: nat)
    requires q <= |z| && q <= |c|
    requires forall k :: 0 <= k < q ==> z[k] == 0.0
    ensures Dot(z, c, q) == 0.0
  {
    if q > 0 {
      DotOfZeros(z, c, q - 1);
    }
  }

  /** Applying `a` and then `b` to a row vector is applying `a·b`. */
  lemma RowTimesProduct(u: seq<real>, a: Mat, b: Mat, n: nat, q: nat, p: nat)
    requires |u| == n && Shape(a, n, q) && Shape(b, q, p)
    ensures RowTimes(RowTimes(u, a, n, q), b, q, p) == RowTimes(u, Product(a, b, n, q, p), n, p)
  {
    var ab := Product(a, b, n, q, p);
    forall j | 0 <= j < p
      ensures RowTimes(RowTimes(u, a, n, q), b, q, p)[j] == RowTimes(u, ab, n, p)[j]
    {
      var c := Col(b, j);
      assert Col(ab, j) == ColumnDots(a, c, n, q);
      assert RowTimes(u, a, n, q) == PartialRowTimes(u, a, n, q, n);
      DotExchange(u, a, c, n, q, n);
    }
  }

  /** The matrix product is associative. */
  lemma ProductAssociative(a: Mat, b: Mat, c: Mat, m: nat, n: nat, q: nat, p: nat)
    requires Shape(a, m, n) && Shape(b, n, q) && Shape(c, q, p)
    ensures Product(Product(a, b, m, n, q), c, m, q, p) == Product(a, Product(b, c, n, q, p), m, n, p)
  {
    forall i | 0 <= i < m
      ensures Product(Product(a, b, m, n, q), c, m, q, p)[i] == Product(a, Product(b, c, n, q, p), m, n, p)[i]
    {
      RowTimesProduct(a[i], b, c, n, q, p);
    }
  }

  lemma {:induction false} DotUnit(v: seq<real>, n: nat, i: nat, t: nat)
    requires |v| == n && i < n && t <= n
    ensures Dot(Identity(n)[i], v, t) == if i < t then v[i] else 0.0
  {
    if t > 0 {
      DotUnit(v, n, i, t - 1);
    }
  }

  lemma {:induction false} DotAgainstUnit(u: seq<real>, n: nat, j: nat, t: nat)
    requires |u| == n && j < n && t <= n
    ensures Dot(u, Col(Identity(n), j), t) == if j < t then u[j] else 0.0
  {
    if t > 0 {
      DotAgainstUnit(u, n, j, t - 1);
    }
  }

  /** A row vector times the identity is itself. */
  lemma RowTimesIdentity(u: seq<real>, n: nat)
    requires |u| == n
    ensures RowTimes(u, Identity(n), n, n) == u
  {
    forall j | 0 <= j < n ensures RowTimes(u, Identity(n), n, n)[j] == u[j] {
      DotAgainstUnit(u, n, j, n);
    }
  }

  /** The identity is neutral on both sides of the product. */
  lemma ProductIdentity(a: Mat, n: nat)
    requires Shape(a, n, n)
    ensures Product(Identity(n), a, n, n, n) == a
    ensures Product(a, Identity(n), n, n, n) == a
  {
    forall i | 0 <= i < n ensures Product(Identity(n), a, n, n, n)[i] == a[i] {
      forall j | 0 <= j < n ensures Product(Identity(n), a, n, n, n)[i][j] == a[i][j] {
        DotUnit(Col(a, j), n, i, n);
      }
    }
    forall i | 0 <= i < n ensures Product(a, Identity(n), n, n, n)[i] == a[i] {
      RowTimesIdentity(a[i], n);
    }
  }

  // ------------------------------------------------------- mat.rs unit tests

  function Sample(): Mat
  {
    [[0.0, 1.0, 2.0, 3.0], [4.0, 5.0, 6.0, 7.0]]
  }

  /** Indexing test: m[0][1] is 1 and m[1][3] is 7; row 2 does not exist. */
  lemma SampleIndexing()
    ensures Row(Sample(), 0).Some? && Row(Sample(), 0).value[1] == 1.0
    ensures Row(Sample(), 1).Some? && Row(Sample(), 1).value[3] == 7.0
    ensures Row(Sample(), 2) == None
  {
  }

  /** Scalar tests: ×4 gives [1][1] = 20, a further ×2 gives 40, and /4 gives 5/4. */
  lemma SampleScalar()
    ensures Scaled(Sample(), 4.0)[1][1] == 20.0
    ensures Scaled(Scaled(Sample(), 4.0), 2.0)[1][1] == 40.0
    ensures Divided(Sample(), 4.0)[1][1] == 5.0 / 4.0
  {
  }

  /** Addition and subtraction tests. */
  lemma SampleSumDifference()
    ensures Sum(Sample(), Sample())[1][1] == 10.0
    ensures Difference([[0.0, 1.0, 2.0, 3.0], [4.0, 7.0, 6.0, 7.0]], Sample())[1][1] == 2.0
  {
  }

  /** Product tests: a 2×3 by 3×2 product, and a 2×2 matrix multiplied by itself. */
  lemma SampleProducts()
    ensures Product([[0.0, 1.0, 2.0], [3.0, 4.0, 5.0]], [[6.0, 7.0], [8.0, 9.0], [10.0, 11.0]], 2, 3, 2)
         == [[28.0, 31.0], [100.0, 112.0]]
    ensures Product([[2.0, 3.0], [5.0, 4.0]], [[2.0, 3.0], [5.0, 4.0]], 2, 2, 2)
         == [[19.0, 18.0], [30.0, 31.0]]
  {
    var a := [[0.0, 1.0, 2.0], [3.0, 4.0, 5.0]];
    var b := [[6.0, 7.0], [8.0, 9.0], [10.0, 11.0]];
    assert Col(b, 0) == [6.0, 8.0, 10.0];
    assert Col(b, 1) == [7.0, 9.0, 11.0];
    var p := Product(a, b, 2, 3, 2);
    assert Dot([0.0, 1.0, 2.0], [6.0, 8.0, 10.0], 3) == 28.0 && Dot([0.0, 1.0, 2.0], [7.0, 9.0, 11.0], 3) == 31.0;
    assert Dot([3.0, 4.0, 5.0], [6.0, 8.0, 10.0], 3) == 100.0 && Dot([3.0, 4.0, 5.0], [7.0, 9.0, 11.0], 3) == 112.0;
    assert Dot(a[0], Col(b, 0), 3) == 28.0 && Dot(a[0], Col(b, 1), 3) == 31.0;
    assert Dot(a[1], Col(b, 0), 3) == 100.0 && Dot(a[1], Col(b, 1), 3) == 112.0;
    assert p[0] == [28.0, 31.0];
    assert p[1] == [100.0, 112.0];
    var s := [[2.0, 3.0], [5.0, 4.0]];
    assert Col(s, 0) == [2.0, 5.0];
    assert Col(s, 1) == [3.0, 4.0];
    var q := Product(s, s, 2, 2, 2);
    assert Dot([2.0, 3.0], [2.0, 5.0], 2) == 19.0 && Dot([2.0, 3.0], [3.0, 4.0], 2) == 18.0;
    assert Dot([5.0, 4.0], [2.0, 5.0], 2) == 30.0 && Dot([5.0, 4.0], [3.0, 4.0], 2) == 31.0;
    assert Dot(s[0], Col(s, 0), 2) == 19.0 && Dot(s[0], Col(s, 1), 2) == 18.0;
    assert Dot(s[1], Col(s, 0), 2) == 30.0 && Dot(s[1], Col(s, 1), 2) == 31.0;
    assert q[0] == [19.0, 18.0];
    assert q[1] == [30.0, 31.0];
  }
}
