// src/geometry/vector/: a D-dimensional vector is the single row of a 1×D
// matrix.  Arithmetic delegates to the matrix operations; `promote`/`demote`
// copy a slice into a default vector; `Index<Dim>` maps an axis name to a slot.

module Vector {
  import opened Numeric
  import opened Matrix

  /** `Vector<T, D>(Matrix<T, 1, D>)`, kept as its one row. */
  datatype Vector = Vector(c: seq<real>)

  /** `u + v` and `u += v`: the matrix sum of the two rows. */
  function Add(u: Vector, v: Vector): (r: Vector)
    requires |u.c| == |v.c|
    ensures |r.c| == |u.c|
    ensures forall k :: 0 <= k < |u.c| ==> r.c[k] == u.c[k] + v.c[k]
  {
    Vector(Sum([u.c], [v.c])[0])
  }

  /** `v * Scalar(s)` and `v *= Scalar(s)`. */
  function Scale(v: Vector, s: real): (r: Vector)
    ensures |r.c| == |v.c|
    ensures forall k :: 0 <= k < |v.c| ==> r.c[k] == v.c[k] * s
  {
    Vector(Scaled([v.c], s)[0])
  }

  /** `v / Scalar(s)` and `v /= Scalar(s)`. */
  function DivScalar(v: Vector, s: real): (r: Vector)
    requires s != 0.0
    ensures |r.c| == |v.c|
    ensures forall k :: 0 <= k < |v.c| ==> r.c[k] == v.c[k] / s
  {
    Vector(Divided([v.c], s)[0])
  }

  /** `-v`: `map` with negation. */
  function Neg(v: Vector): (r: Vector)
    ensures |r.c| == |v.c|
    ensures forall k :: 0 <= k < |v.c| ==> r.c[k] == -v.c[k]
  {
    Vector(Map([v.c], x => -x)[0])
  }

  lemma NegInvolutive(v: Vector)
    ensures Neg(Neg(v)) == v
  {
    assert Neg(Neg(v)).c == v.c;
  }

  /** `v * m` for an R×C matrix: the 1×R by R×C product, a C-dimensional vector.
      `v *= m` for a square `m` computes the same product and stores it in `v`. */
  function Times(v: Vector, m: Mat, cols: nat): (r: Vector)
    requires Shape(m, |v.c|, cols)
    ensures r.c == RowTimes(v.c, m, |v.c|, cols)
  {
    Vector(Product([v.c], m, 1, |v.c|, cols)[0])
  }

  /** Multiplying by `a` and then by `b` is multiplying by `a·b`. */
  lemma TimesComposes(v: Vector, a: Mat, b: Mat, q: nat, p: nat)
    requires Shape(a, |v.c|, q) && Shape(b, q, p)
    ensures Times(Times(v, a, q), b, p) == Times(v, Product(a, b, |v.c|, q, p), p)
  {
    RowTimesProduct(v.c, a, b, |v.c|, q, p);
  }

  /** The scaling tests of vector.rs: (0.43, 56.28, −87.52, −0.23) times and divided by
      4.87 is each component times and divided by 4.87, and in exact arithmetic the
      division undoes the multiplication. */
  lemma ScaleExamples()
    ensures var v := Vector([0.43, 56.28, -87.52, -0.23]);
            Scale(v, 4.87) == Vector([0.43 * 4.87, 56.28 * 4.87, -87.52 * 4.87, -0.23 * 4.87])
            && DivScalar(v, 4.87) == Vector([0.43 / 4.87, 56.28 / 4.87, -87.52 / 4.87, -0.23 / 4.87])
            && DivScalar(Scale(v, 4.87), 4.87) == v
  {
    var v := Vector([0.43, 56.28, -87.52, -0.23]);
    assert Scale(v, 4.87).c == [0.43 * 4.87, 56.28 * 4.87, -87.52 * 4.87, -0.23 * 4.87];
    assert DivScalar(v, 4.87).c == [0.43 / 4.87, 56.28 / 4.87, -87.52 / 4.87, -0.23 / 4.87];
    assert DivScalar(Scale(v, 4.87), 4.87).c == v.c;
  }

  // ------------------------------------------------------------ convert.rs

  function Promoted(v: Vector, nd: nat): Vector
    requires |v.c| <= nd
  {
    Vector(v.c + seq(nd - |v.c|, _ => 0.0))
  }

  function Demoted(v: Vector, nd: nat): Vector
    requires nd <= |v.c|
  {
    Vector(v.c[..nd])
  }

  /** `promote::<ND>()`: copies the D components into the front of a default ND vector;
      when ND < D the destination slice `[..D]` is out of range and the call panics. */
  method Promote(v: Vector, nd: nat) returns (r: Option<Vector>)
    ensures r.Some? <==> |v.c| <= nd
    ensures r.Some? ==> (|r.value.c| == nd && r.value.c[..|v.c|] == v.c
      && (forall k :: |v.c| <= k < nd ==> r.value.c[k] == 0.0))
    ensures r.Some? ==> r.value == Promoted(v, nd)
  {
    if nd < |v.c| {
      return None;
    }
    var out := seq(nd, _ => 0.0);
    for k := 0 to |v.c|
      invariant |out| == nd
      invariant forall i :: 0 <= i < k ==> out[i] == v.c[i]
      invariant forall i :: k <= i < nd ==> out[i] == 0.0
    {
      out := out[k := v.c[k]];
    }
    assert out == Promoted(v, nd).c;
    r := Some(Vector(out));
  }

  /** `demote::<ND>()`: copies the first ND components into a default ND vector;
      when ND > D the source slice `[..ND]` is out of range and the call panics. */
  method Demote(v: Vector, nd: nat) returns (r: Option<Vector>)
    ensures r.Some? <==> nd <= |v.c|
    ensures r.Some? ==> r.value.c == v.c[..nd]
    ensures r.Some? ==> r.value == Demoted(v, nd)
  {
    if |v.c| < nd {
      return None;
    }
    var out := seq(nd, _ => 0.0);
    for k := 0 to nd
      invariant |out| == nd
      invariant forall i :: 0 <= i < k ==> out[i] == v.c[i]
    {
      out := out[k := v.c[k]];
    }
    r := Some(Vector(out));
  }

  /** Demoting a promoted vector gives the original back. */
  lemma DemotePromote(v: Vector, nd: nat)
    requires |v.c| <= nd
    ensures Demoted(Promoted(v, nd), |v.c|) == v
  {
    assert Promoted(v, nd).c[..|v.c|] == v.c;
  }

  // -------------------------------------------------------------- index.rs

  /** Axis names accepted by `Index<Dim>`. */
  datatype Dim = X | Y | Z | W | N(n: nat)

  /** The slot a guard arm of `index` selects in a D-dimensional vector; `None` is the
      final `panic!()` arm. */
  function Slot(d: Dim, dims: nat): (o: Option<nat>)
    ensures o.Some? ==> o.value <= dims
  {
    match d
    case X => if dims >= 1 then Some(0) else None
    case Y => if dims >= 2 then Some(1) else None
    case Z => if dims >= 3 then Some(2) else None
    case W => if dims >= 4 then Some(3) else None
    case N(n) => if dims >= n then Some(n) else None
  }

  /** `v[d]`: `None` when the guard fails or the selected slot is out of range. */
  function Get(v: Vector, d: Dim): (o: Option<real>)
    ensures o.Some? <==> Slot(d, |v.c|).Some? && Slot(d, |v.c|).value < |v.c|
    ensures o.Some? ==> o.value == v.c[Slot(d, |v.c|).value]
  {
    match Slot(d, |v.c|)
    case Some(k) => if k < |v.c| then Some(v.c[k]) else None
    case None => None
  }

  /** `v[d] = x` through `IndexMut<Dim>`, which uses the same mapping. */
  function Set(v: Vector, d: Dim, x: real): (o: Option<Vector>)
    ensures o.Some? <==> Get(v, d).Some?
    ensures o.Some? ==> (|o.value.c| == |v.c| && Get(o.value, d) == Some(x)
      && (forall k :: 0 <= k < |v.c| && k != Slot(d, |v.c|).value ==> o.value.c[k] == v.c[k]))
  {
    match Slot(d, |v.c|)
    case Some(k) => if k < |v.c| then Some(Vector(v.c[k := x])) else None
    case None => None
  }

  /** The named axes read slots 0..3, and each needs a dimension beyond its slot. */
  lemma NamedAxes(v: Vector)
    ensures Get(v, X).Some? <==> |v.c| >= 1
    ensures Get(v, Y).Some? <==> |v.c| >= 2
    ensures Get(v, Z).Some? <==> |v.c| >= 3
    ensures Get(v, W).Some? <==> |v.c| >= 4
    ensures |v.c| >= 4 ==> (Get(v, X) == Some(v.c[0]) && Get(v, Y) == Some(v.c[1])
      && Get(v, Z) == Some(v.c[2]) && Get(v, W) == Some(v.c[3]))
  {
  }

  /** The `N(n)` guard is `D >= n`, so `N(D)` passes it and then indexes past the end:
      in effect `n < D` is what succeeds. */
  lemma NumberedAxisGuard(v: Vector, n: nat)
    ensures Slot(N(|v.c|), |v.c|) == Some(|v.c|)
    ensures Get(v, N(|v.c|)) == None
    ensures Get(v, N(n)).Some? <==> n < |v.c|
  {
  }
}
