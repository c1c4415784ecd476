// src/geometry/point/: a D-dimensional point is the single row of a 1×D
// matrix.  Points are moved by vectors, differ by vectors, scale, and are
// transformed by a matrix on the right; 3-D points convert to and from
// homogeneous 4-D form; integer points widen and narrow between widths.

module Point {
  import opened Numeric
  import opened Matrix
  import opened Vector

  /** `Point<T, D>(Matrix<T, 1, D>)`, kept as its one row. */
  datatype Point = Point(c: seq<real>)

  // ------------------------------------------------------------- arith.rs

  /** `p + v`, and `p += v` (also `translate`), as the matrix sum of the rows. */
  function Translate(p: Point, v: Vector): (r: Point)
    requires |v.c| == |p.c|
    ensures |r.c| == |p.c|
    ensures forall k :: 0 <= k < |p.c| ==> r.c[k] == p.c[k] + v.c[k]
  {
    Point(Sum([p.c], [v.c])[0])
  }

  /** `p - q`: the vector of coordinate differences. */
  function Diff(p: Point, q: Point): (r: Vector)
    requires |q.c| == |p.c|
    ensures |r.c| == |p.c|
    ensures forall k :: 0 <= k < |p.c| ==> r.c[k] == p.c[k] - q.c[k]
  {
    Vector(Difference([p.c], [q.c])[0])
  }

  /** `p * Scalar(s)` and `p *= Scalar(s)`. */
  function Scale(p: Point, s: real): (r: Point)
    ensures |r.c| == |p.c|
    ensures forall k :: 0 <= k < |p.c| ==> r.c[k] == p.c[k] * s
  {
    Point(Scaled([p.c], s)[0])
  }

  /** `p / Scalar(s)` and `p /= Scalar(s)`. */
  function DivScalar(p: Point, s: real): (r: Point)
    requires s != 0.0
    ensures |r.c| == |p.c|
    ensures forall k :: 0 <= k < |p.c| ==> r.c[k] == p.c[k] / s
  {
    Point(Divided([p.c], s)[0])
  }

  /** `p * m` for an R×C matrix, a C-dimensional point; `p *= m` for a square `m`
      stores the same product in `p`. */
  function Times(p: Point, m: Mat, cols: nat): (r: Point)
    requires Shape(m, |p.c|, cols)
    ensures r.c == RowTimes(p.c, m, |p.c|, cols)
  {
    Point(Product([p.c], m, 1, |p.c|, cols)[0])
  }

  /** Moving by `q - p` takes `p` to `q`: translation and difference are inverse. */
  lemma TranslateByDiff(p: Point, q: Point)
    requires |p.c| == |q.c|
    ensures Translate(p, Diff(q, p)) == q
    ensures Diff(Translate(p, Diff(q, p)), p) == Diff(q, p)
  {
    assert Translate(p, Diff(q, p)).c == q.c;
  }

  /** Transforming by `a` and then `b` is transforming by `a·b`. */
  lemma TimesComposes(p: Point, a: Mat, b: Mat, q: nat, n: nat)
    requires Shape(a, |p.c|, q) && Shape(b, q, n)
    ensures Times(Times(p, a, q), b, n) == Times(p, Product(a, b, |p.c|, q, n), n)
  {
    RowTimesProduct(p.c, a, b, |p.c|, q, n);
  }

  /** The tests of point.rs, in exact arithmetic: a = (0.22, 25.14, −44.31, −0.12) doubled,
      and translated by itself as a vector, is b = (0.44, 50.28, −88.62, −0.24), and b
      halved is a; a diag(2) matrix doubles (1, 2, 3, −4); a's vector to b is a, and its
      vector from b is −a. */
  lemma ArithExamples()
    ensures var a, b := Point([0.22, 25.14, -44.31, -0.12]), Point([0.44, 50.28, -88.62, -0.24]);
            Scale(a, 2.0) == b && DivScalar(b, 2.0) == a && Translate(a, Vector(a.c)) == b
            && VectorTo(a, b) == Vector(a.c) && VectorFrom(a, b) == Neg(Vector(a.c))
    ensures Times(Point([1.0, 2.0, 3.0, -4.0]), Scaled(Identity(4), 2.0), 4) == Point([2.0, 4.0, 6.0, -8.0])
  {
    var a, b := Point([0.22, 25.14, -44.31, -0.12]), Point([0.44, 50.28, -88.62, -0.24]);
    assert Scale(a, 2.0).c == b.c;
    assert DivScalar(b, 2.0).c == a.c;
    assert Translate(a, Vector(a.c)).c == b.c;
    assert VectorTo(a, b).c == a.c;
    assert VectorFrom(a, b).c == Neg(Vector(a.c)).c;
    var p := Point([1.0, 2.0, 3.0, -4.0]);
    var d := Scaled(Identity(4), 2.0);
    forall j | 0 <= j < 4 ensures Times(p, d, 4).c[j] == 2.0 * p.c[j] {
      var col := Col(d, j);
      DotScaledUnit(p.c, col, j);
    }
    assert Times(p, d, 4).c == [2.0, 4.0, 6.0, -8.0];
  }

  lemma DotScaledUnit(u: seq<real>, col: seq<real>, j: nat)
    requires |u| == 4 && |col| == 4 && j < 4
    requires forall i :: 0 <= i < 4 ==> col[i] == if i == j then 2.0 else 0.0
    ensures Dot(u, col, 4) == 2.0 * u[j]
  {
    assert Dot(u, col, 1) == u[0] * col[0];
    assert Dot(u, col, 2) == u[0] * col[0] + u[1] * col[1];
    assert Dot(u, col, 3) == u[0] * col[0] + u[1] * col[1] + u[2] * col[2];
  }

  // ----------------------------------------------------------- method.rs

  /** `p.vector_from(q)` is `p - q`. */
  function VectorFrom(p: Point, q: Point): (r: Vector)
    requires |q.c| == |p.c|
    ensures r == Diff(p, q)
  {
    Diff(p, q)
  }

  /** `p.vector_to(q)` is `q - p`. */
  function VectorTo(p: Point, q: Point): (r: Vector)
    requires |q.c| == |p.c|
    ensures r == Diff(q, p)
  {
    Diff(q, p)
  }

  /** The two directions are negations of each other (test point_subtraction). */
  lemma VectorFromIsNegatedVectorTo(p: Point, q: Point)
    requires |q.c| == |p.c|
    ensures VectorFrom(p, q) == Neg(VectorTo(p, q))
    ensures Translate(q, VectorFrom(p, q)) == p
  {
    assert VectorFrom(p, q).c == Neg(VectorTo(p, q)).c;
    assert Translate(q, VectorFrom(p, q)).c == p.c;
  }

  // ---------------------------------------------------------- convert.rs

  /** `to_homogenous`: (x, y, z) becomes (x, y, z, 1). */
  function ToHomogenous(p: Point): (r: Point)
    requires |p.c| == 3
    ensures r.c == p.c + [1.0]
  {
    Point([p.c[0], p.c[1], p.c[2], 1.0])
  }

  /** `from_homogenous`: (x/w, y/w, z/w), over real elements.  With w = 0 there is
      no value. */
  function FromHomogenous(p: Point): (r: Option<Point>)
    requires |p.c| == 4
    ensures r.Some? <==> p.c[3] != 0.0
    ensures r.Some? ==> (|r.value.c| == 3
      && forall k :: 0 <= k < 3 ==> r.value.c[k] * p.c[3] == p.c[k])
  {
    if p.c[3] == 0.0 then None
    else Some(Point([p.c[0] / p.c[3], p.c[1] / p.c[3], p.c[2] / p.c[3]]))
  }

  /** Converting to homogeneous form and back is the identity. */
  lemma HomogenousRoundTrip(p: Point)
    requires |p.c| == 3
    ensures FromHomogenous(ToHomogenous(p)) == Some(p)
  {
    assert FromHomogenous(ToHomogenous(p)).value.c == p.c;
  }

  /** Widening `From`: every integer coordinate maps independently to the wider type. */
  function Widen(p: seq<int>): (r: Point)
    ensures |r.c| == |p|
    ensures forall k :: 0 <= k < |p| ==> r.c[k] == p[k] as real
  {
    Point(seq(|p|, k requires 0 <= k < |p| => p[k] as real))
  }

  /** Narrowing `TryFrom` into an integer type with range [lo, hi]: every coordinate is
      converted, a failing one is replaced by the default and remembered in `error`,
      and the result is `Err` exactly when some coordinate did not fit. */
  method TryNarrow(p: seq<int>, lo: int, hi: int) returns (r: Option<seq<int>>)
    ensures r.Some? <==> forall k :: 0 <= k < |p| ==> lo <= p[k] <= hi
    ensures r.Some? ==> r.value == p
  {
    var error := false;
    var out := [];
    for k := 0 to |p|
      invariant |out| == k
      invariant error <==> exists i :: 0 <= i < k && !(lo <= p[i] <= hi)
      invariant forall i :: 0 <= i < k && lo <= p[i] <= hi ==> out[i] == p[i]
    {
      if lo <= p[k] <= hi {
        out := out + [p[k]];
      } else {
        error := true;
        out := out + [0];
      }
    }
    if error {
      r := None;
    } else {
      r := Some(out);
    }
  }
}
