// src/primitives.rs and its f64 twin src/primitives/vertex.rs: the
// four-component `Vertex` of the older pipeline, its componentwise operators,
// the row-vector product with a 4×4 `TransformMatrix`, the NDC test, and the
// index-or-reference `Polygon`.  Both files have the same bodies and differ
// only in the float width, which the model (over `real`) does not distinguish.

module Primitives {
  import opened Numeric
  import opened Matrix

  /** `Vertex { x, y, z, w }`; `Vector` is the same type. */
  datatype Vertex = Vertex(x: real, y: real, z: real, w: real)

  /** The four components in declaration order. */
  function Coords(v: Vertex): (c: seq<real>)
    ensures |c| == 4
  {
    [v.x, v.y, v.z, v.w]
  }

  function FromCoords(c: seq<real>): (v: Vertex)
    requires |c| == 4
    ensures Coords(v) == c
  {
    Vertex(c[0], c[1], c[2], c[3])
  }

  lemma CoordsRoundTrip(v: Vertex)
    ensures FromCoords(Coords(v)) == v
  {
  }

  /** `Vertex::new`. */
  function New(x: real, y: real, z: real, w: real): (v: Vertex)
    ensures Coords(v) == [x, y, z, w]
  {
    Vertex(x, y, z, w)
  }

  /** `a + b`: all four components, w included. */
  function Add(a: Vertex, b: Vertex): (r: Vertex)
    ensures forall k :: 0 <= k < 4 ==> Coords(r)[k] == Coords(a)[k] + Coords(b)[k]
  {
    Vertex(a.x + b.x, a.y + b.y, a.z + b.z, a.w + b.w)
  }

  /** `a - b`. */
  function Sub(a: Vertex, b: Vertex): (r: Vertex)
    ensures forall k :: 0 <= k < 4 ==> Coords(r)[k] == Coords(a)[k] - Coords(b)[k]
  {
    Vertex(a.x - b.x, a.y - b.y, a.z - b.z, a.w - b.w)
  }

  /** `a + s` for a scalar: s is added to every component, w included. */
  function AddScalar(a: Vertex, s: real): (r: Vertex)
    ensures forall k :: 0 <= k < 4 ==> Coords(r)[k] == Coords(a)[k] + s
  {
    Vertex(a.x + s, a.y + s, a.z + s, a.w + s)
  }

  /** `a - s`. */
  function SubScalar(a: Vertex, s: real): (r: Vertex)
    ensures forall k :: 0 <= k < 4 ==> Coords(r)[k] == Coords(a)[k] - s
  {
    Vertex(a.x - s, a.y - s, a.z - s, a.w - s)
  }

  /** `a * s`. */
  function Mul(a: Vertex, s: real): (r: Vertex)
    ensures forall k :: 0 <= k < 4 ==> Coords(r)[k] == Coords(a)[k] * s
  {
    Vertex(a.x * s, a.y * s, a.z * s, a.w * s)
  }

  /** `a / d`. */
  function Div(a: Vertex, d: real): (r: Vertex)
    requires d != 0.0
    ensures forall k :: 0 <= k < 4 ==> Coords(r)[k] == Coords(a)[k] / d
  {
    Vertex(a.x / d, a.y / d, a.z / d, a.w / d)
  }

  /** Subtracting undoes adding, for vertices and for scalars; dividing undoes
      multiplying by a non-zero scalar. */
  lemma ArithmeticInverses(a: Vertex, b: Vertex, s: real)
    ensures Sub(Add(a, b), b) == a
    ensures SubScalar(AddScalar(a, s), s) == a
    ensures s != 0.0 ==> Div(Mul(a, s), s) == a
  {
    if s != 0.0 {
      MulDivCancel(a.x, s);
      MulDivCancel(a.y, s);
      MulDivCancel(a.z, s);
      MulDivCancel(a.w, s);
    }
  }

  lemma MulDivCancel(a: real, s: real)
    requires s != 0.0
    ensures a * s / s == a
  {
  }

  /** `TransformMatrix([[f32; 4]; 4])`, kept as its four rows. */
  datatype TransformMatrix = TransformMatrix(rows: Mat)

  predicate WellFormed(m: TransformMatrix)
  {
    Shape(m.rows, 4, 4)
  }

  /** `v * matrix`: component j is Σ_k v[k]·matrix[k][j], written out over x, y, z, w. */
  function Transform(v: Vertex, m: TransformMatrix): (r: Vertex)
    requires WellFormed(m)
  {
    var a := m.rows;
    Vertex(v.x * a[0][0] + v.y * a[1][0] + v.z * a[2][0] + v.w * a[3][0],
           v.x * a[0][1] + v.y * a[1][1] + v.z * a[2][1] + v.w * a[3][1],
           v.x * a[0][2] + v.y * a[1][2] + v.z * a[2][2] + v.w * a[3][2],
           v.x * a[0][3] + v.y * a[1][3] + v.z * a[2][3] + v.w * a[3][3])
  }

  lemma RowTimesColumn(v: Vertex, a: Mat, j: nat)
    requires Shape(a, 4, 4) && j < 4
    ensures RowTimes(Coords(v), a, 4, 4)[j] == v.x * a[0][j] + v.y * a[1][j] + v.z * a[2][j] + v.w * a[3][j]
  {
    var c := Col(a, j);
    DotFour(Coords(v), c);
    assert c[0] == a[0][j] && c[1] == a[1][j] && c[2] == a[2][j] && c[3] == a[3][j];
  }

  /** The written-out product is the row-vector product of the generic matrix code. */
  lemma TransformIsRowTimes(v: Vertex, m: TransformMatrix)
    requires WellFormed(m)
    ensures Coords(Transform(v, m)) == RowTimes(Coords(v), m.rows, 4, 4)
  {
    var t := RowTimes(Coords(v), m.rows, 4, 4);
    var r := Transform(v, m);
    RowTimesColumn(v, m.rows, 0);
    RowTimesColumn(v, m.rows, 1);
    RowTimesColumn(v, m.rows, 2);
    RowTimesColumn(v, m.rows, 3);
    assert r.x == t[0] && r.y == t[1] && r.z == t[2] && r.w == t[3];
    assert Coords(r) == [t[0], t[1], t[2], t[3]];
  }

  /** `TransformMatrix * TransformMatrix`: entry (i, j) is Σ_k a[i][k]·b[k][j]. */
  function Compose(a: TransformMatrix, b: TransformMatrix): (r: TransformMatrix)
    requires WellFormed(a) && WellFormed(b)
    ensures WellFormed(r)
    ensures r.rows == Product(a.rows, b.rows, 4, 4, 4)
  {
    var p, q := a.rows, b.rows;
    var r := TransformMatrix(seq(4, i requires 0 <= i < 4 => seq(4, j requires 0 <= j < 4 =>
      p[i][0] * q[0][j] + p[i][1] * q[1][j] + p[i][2] * q[2][j] + p[i][3] * q[3][j])));
    assert r.rows == Product(p, q, 4, 4, 4) by {
      forall i | 0 <= i < 4 ensures r.rows[i] == Product(p, q, 4, 4, 4)[i] {
        forall j | 0 <= j < 4 ensures r.rows[i][j] == Product(p, q, 4, 4, 4)[i][j] {
          DotFour(p[i], Col(q, j));
        }
      }
    }
    r
  }

  /** Transforming by `a` and then by `b` is transforming by `a * b`. */
  lemma TransformComposes(v: Vertex, a: TransformMatrix, b: TransformMatrix)
    requires WellFormed(a) && WellFormed(b)
    ensures Transform(Transform(v, a), b) == Transform(v, Compose(a, b))
  {
    TransformIsRowTimes(v, a);
    TransformIsRowTimes(Transform(v, a), b);
    TransformIsRowTimes(v, Compose(a, b));
    RowTimesProduct(Coords(v), a.rows, b.rows, 4, 4, 4);
    CoordsRoundTrip(Transform(Transform(v, a), b));
    CoordsRoundTrip(Transform(v, Compose(a, b)));
  }

  /** The matrix product is associative, and the identity leaves a vertex unchanged. */
  lemma ComposeAssociative(a: TransformMatrix, b: TransformMatrix, c: TransformMatrix, v: Vertex)
    requires WellFormed(a) && WellFormed(b) && WellFormed(c)
    ensures Compose(Compose(a, b), c) == Compose(a, Compose(b, c))
    ensures Transform(v, TransformMatrix(Identity(4))) == v
  {
    ProductAssociative(a.rows, b.rows, c.rows, 4, 4, 4, 4);
    TransformIsRowTimes(v, TransformMatrix(Identity(4)));
    RowTimesIdentity(Coords(v), 4);
    CoordsRoundTrip(Transform(v, TransformMatrix(Identity(4))));
  }

  /** `in_ndc_space`: strictly inside the unit cube on x, y and z; w is ignored. */
  function InNdcSpace(v: Vertex): (b: bool)
    ensures b <==> (-1.0 < v.x < 1.0 && -1.0 < v.y < 1.0 && -1.0 < v.z < 1.0)
  {
    AbsReal(v.x) < 1.0 && AbsReal(v.y) < 1.0 && AbsReal(v.z) < 1.0
  }

  /** The faces of the cube are outside, and w plays no part. */
  lemma NdcBoundaryExcluded(v: Vertex, w: real)
    ensures !InNdcSpace(Vertex(1.0, v.y, v.z, v.w)) && !InNdcSpace(Vertex(v.x, -1.0, v.z, v.w))
    ensures InNdcSpace(Vertex(v.x, v.y, v.z, w)) == InNdcSpace(v)
  {
  }

  /** `Polygon<T> { p1, p2, p3, normal }`: three vertices or vertex indices and a normal. */
  datatype Polygon<T> = Polygon(p1: T, p2: T, p3: T, normal: T)

  /** `Polygon::new`. */
  function NewPolygon<T>(p1: T, p2: T, p3: T, normal: T): (r: Polygon<T>)
    ensures Corners(r) == [p1, p2, p3] && r.normal == normal
  {
    Polygon(p1, p2, p3, normal)
  }

  function Corners<T>(p: Polygon<T>): seq<T>
  {
    [p.p1, p.p2, p.p3]
  }
}
