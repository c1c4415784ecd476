// src/shapes/primitives.rs and src/shapes/cube.rs: the four-float `Point`
// with its row-vector transform, the two-point `Line`, the three-point
// `Triangle` and its closed outline, and the integer `Cube` of twelve
// triangles with its 36 outline lines.

module Shapes {
  import opened Numeric
  import opened Matrix
  import Pr = Primitives

  /** `Point(f32, f32, f32, f32)`. */
  datatype Point = Point(p0: real, p1: real, p2: real, p3: real)

  function Coords(p: Point): (c: seq<real>)
    ensures |c| == 4
  {
    [p.p0, p.p1, p.p2, p.p3]
  }

  /** `transform_to_copy`: the row-vector product of the point with a 4×4 array, the
      same written-out sums as `Primitives.Transform`. */
  function TransformToCopy(p: Point, m: Mat): (r: Point)
    requires Shape(m, 4, 4)
    ensures Coords(r) == RowTimes(Coords(p), m, 4, 4)
  {
    var v := Pr.Transform(Pr.Vertex(p.p0, p.p1, p.p2, p.p3), Pr.TransformMatrix(m));
    Pr.TransformIsRowTimes(Pr.Vertex(p.p0, p.p1, p.p2, p.p3), Pr.TransformMatrix(m));
    Point(v.x, v.y, v.z, v.w)
  }

  /** Transforming by `a` and then by `b` is transforming by the product `a · b`. */
  lemma TransformToCopyComposes(p: Point, a: Mat, b: Mat)
    requires Shape(a, 4, 4) && Shape(b, 4, 4)
    ensures TransformToCopy(TransformToCopy(p, a), b) == TransformToCopy(p, Product(a, b, 4, 4, 4))
  {
    RowTimesProduct(Coords(p), a, b, 4, 4, 4);
    var l, r := TransformToCopy(TransformToCopy(p, a), b), TransformToCopy(p, Product(a, b, 4, 4, 4));
    assert Coords(l) == Coords(r);
    assert l.p0 == Coords(l)[0] && l.p1 == Coords(l)[1] && l.p2 == Coords(l)[2] && l.p3 == Coords(l)[3];
  }

  /** A point slot updated in place by `Point::transform`. */
  class PointCell {
    var value: Point

    constructor (p: Point)
      ensures value == p
    {
      value := p;
    }

    /** `transform`: every component is computed from the saved `old_self`, so the slot
        ends holding exactly what `transform_to_copy` returns. */
    method Transform(m: Mat)
      requires Shape(m, 4, 4)
      modifies this
      ensures value == TransformToCopy(old(value), m)
    {
      var oldSelf := value;
      value := Point(oldSelf.p0 * m[0][0] + oldSelf.p1 * m[1][0] + oldSelf.p2 * m[2][0] + oldSelf.p3 * m[3][0],
                     oldSelf.p0 * m[0][1] + oldSelf.p1 * m[1][1] + oldSelf.p2 * m[2][1] + oldSelf.p3 * m[3][1],
                     oldSelf.p0 * m[0][2] + oldSelf.p1 * m[1][2] + oldSelf.p2 * m[2][2] + oldSelf.p3 * m[3][2],
                     oldSelf.p0 * m[0][3] + oldSelf.p1 * m[1][3] + oldSelf.p2 * m[2][3] + oldSelf.p3 * m[3][3]);
    }
  }

  /** `Line(Point, Point)`; the cube uses the same shapes over integer points. */
  datatype Line<T> = Line(a: T, b: T)

  /** `Triangle(Point, Point, Point)`. */
  datatype Triangle<T> = Triangle(a: T, b: T, c: T)

  function Corners<T>(t: Triangle<T>): (c: seq<T>)
    ensures |c| == 3
  {
    [t.a, t.b, t.c]
  }

  /** `Line::new`: both endpoints copied. */
  function NewLine<T>(p: T, q: T): (l: Line<T>)
    ensures l.a == p && l.b == q
  {
    Line(p, q)
  }

  /** `Triangle::new`: the corners copied, in order. */
  function NewTriangle<T>(p: T, q: T, r: T): (t: Triangle<T>)
    ensures Corners(t) == [p, q, r]
  {
    Triangle(p, q, r)
  }

  /** `get_lines`: the outline a→b, b→c, c→a. Line i starts at corner i and ends where
      line i + 1 (mod 3) starts, so the outline is closed. */
  function GetLines<T>(t: Triangle<T>): (l: seq<Line<T>>)
    ensures |l| == 3
    ensures l[0].a == t.a && l[1].a == t.b && l[2].a == t.c
    ensures l[0].b == l[1].a && l[1].b == l[2].a && l[2].b == l[0].a
  {
    [NewLine(t.a, t.b), NewLine(t.b, t.c), NewLine(t.c, t.a)]
  }

  // ------------------------------------------------------------ Cube

  /** `Cube { cube, position, vertex_length }`; integer points are sequences of four. */
  datatype Cube = Cube(cube: seq<Triangle<seq<int>>>, position: seq<int>, vertexLength: nat)

  /** Rust's `/` on integers: the quotient truncated toward zero. */
  function DivTrunc(a: int, b: int): int
    requires b != 0
  {
    if a >= 0 then a / b else -((-a) / b)
  }

  /** `position - vertex_length / 2` on x, y, z; w copied. */
  function Offset(position: seq<int>, len: int): (o: seq<int>)
    requires |position| == 4
    ensures |o| == 4 && o[3] == position[3]
    ensures forall k :: 0 <= k < 3 ==> o[k] == position[k] - DivTrunc(len, 2)
  {
    [position[0] - DivTrunc(len, 2), position[1] - DivTrunc(len, 2), position[2] - DivTrunc(len, 2), position[3]]
  }

  /** The corner `offset + (i, j, k)·len`: east for i = 1, top for j = 1, north for k = 1. */
  function Corner(o: seq<int>, len: int, i: int, j: int, k: int): seq<int>
    requires |o| == 4
  {
    [i * len + o[0], j * len + o[1], k * len + o[2], o[3]]
  }

  /** The twelve triangles, two per face: south, east, north, west, top, bottom. */
  function Faces(o: seq<int>, len: int): (f: seq<Triangle<seq<int>>>)
    requires |o| == 4
    ensures |f| == 12
  {
    var nwB, neB, swB, seB := Corner(o, len, 0, 0, 1), Corner(o, len, 1, 0, 1), Corner(o, len, 0, 0, 0), Corner(o, len, 1, 0, 0);
    var nwT, neT, swT, seT := Corner(o, len, 0, 1, 1), Corner(o, len, 1, 1, 1), Corner(o, len, 0, 1, 0), Corner(o, len, 1, 1, 0);
    [NewTriangle(swB, swT, seT), NewTriangle(swB, seT, seB),
     NewTriangle(seB, seT, neT), NewTriangle(seB, neT, neB),
     NewTriangle(neB, neT, nwT), NewTriangle(neB, nwT, nwB),
     NewTriangle(nwB, nwT, swT), NewTriangle(nwB, swT, swB),
     NewTriangle(swT, nwT, neT), NewTriangle(swT, neT, seT),
     NewTriangle(nwB, swB, seB), NewTriangle(nwB, seB, neB)]
  }

  /** `Cube::new`: the edge length goes through `as i32` and back through `as u32`. */
  function NewCube(position: seq<int>, vertexLength: nat): Cube
    requires |position| == 4 && vertexLength <= U32_MAX
  {
    var len := WrapI32(vertexLength);
    Cube(Faces(Offset(position, len), len), position, WrapU32(len))
  }

  /** The corner selector of an axis: 0 for x, 1 for y, 2 for z. */
  predicate IsCorner(v: seq<int>, o: seq<int>, len: int)
    requires |o| == 4
  {
    exists i, j, k | 0 <= i <= 1 && 0 <= j <= 1 && 0 <= k <= 1 :: v == Corner(o, len, i, j, k)
  }

  /** The stored position and edge length are the inputs, there are twelve triangles, and
      every vertex is one of the eight corners of the cube with edge length
      `vertex_length as i32` placed at the offset. */
  lemma NewCubeShape(position: seq<int>, vertexLength: nat)
    requires |position| == 4 && vertexLength <= U32_MAX
    ensures var c := NewCube(position, vertexLength);
            var len := WrapI32(vertexLength);
            c.position == position && c.vertexLength == vertexLength && |c.cube| == 12
            && forall t <- c.cube, v <- Corners(t) :: IsCorner(v, Offset(position, len), len)
  {
    var len := WrapI32(vertexLength);
    var o := Offset(position, len);
    assert (len - vertexLength) % 0x1_0000_0000 == 0;
    assert WrapU32(len) == vertexLength;
    var f := Faces(o, len);
    forall t <- f, v <- Corners(t) ensures IsCorner(v, o, len) {
      var i :| 0 <= i < 12 && f[i] == t;
      assert IsCorner(Corner(o, len, 0, 0, 0), o, len) && IsCorner(Corner(o, len, 0, 0, 1), o, len);
      assert IsCorner(Corner(o, len, 0, 1, 0), o, len) && IsCorner(Corner(o, len, 0, 1, 1), o, len);
      assert IsCorner(Corner(o, len, 1, 0, 0), o, len) && IsCorner(Corner(o, len, 1, 0, 1), o, len);
      assert IsCorner(Corner(o, len, 1, 1, 0), o, len) && IsCorner(Corner(o, len, 1, 1, 1), o, len);
    }
  }

  /** The coordinate that a face keeps fixed (0 = x, 1 = y, 2 = z) and its corner selector. */
  function FaceAxis(f: nat): nat
  {
    if f == 0 || f == 2 then 2 else if f == 1 || f == 3 then 0 else 1
  }

  function FaceSide(f: nat): int
  {
    if f == 1 || f == 2 || f == 4 then 1 else 0
  }

  /** Triangles 2f and 2f + 1 both lie in face f's plane, and they share the diagonal from
      their first corner to the last corner of the first triangle, so together they cover
      the face's square. */
  lemma FacePairs(o: seq<int>, len: int, f: nat)
    requires |o| == 4 && f < 6
    ensures var s, t := Faces(o, len)[2 * f], Faces(o, len)[2 * f + 1];
            (forall v <- Corners(s) + Corners(t) :: v[FaceAxis(f)] == FaceSide(f) * len + o[FaceAxis(f)])
            && s.a == t.a && s.c == t.b
  {
  }

  /** All the outline lines of a list of triangles, triangle by triangle. */
  function AllLines<T>(ts: seq<Triangle<T>>): (l: seq<Line<T>>)
    ensures |l| == 3 * |ts|
    decreases |ts|
  {
    if |ts| == 0 then [] else GetLines(ts[0]) + AllLines(ts[1..])
  }

  /** `Cube::get_lines`: the 36 outline lines. */
  function CubeLines(c: Cube): seq<Line<seq<int>>>
  {
    AllLines(c.cube)
  }

  /** Line 3k + j of the outline is line j of triangle k. */
  lemma {:induction false} AllLinesAt<T>(ts: seq<Triangle<T>>, k: nat, j: nat)
    requires k < |ts| && j < 3
    ensures AllLines(ts)[3 * k + j] == GetLines(ts[k])[j]
    decreases k
  {
    if k > 0 {
      var rest := AllLines(ts[1..]);
      AllLinesAt(ts[1..], k - 1, j);
      assert ts[1..][k - 1] == ts[k];
      assert AllLines(ts) == GetLines(ts[0]) + rest;
      assert AllLines(ts)[3 * k + j] == rest[3 * (k - 1) + j];
    }
  }

  /** A cube's outline has 36 lines, and triangle k's three lines, which close up around
      it, sit at 3k, 3k + 1 and 3k + 2. */
  lemma CubeLinesLayout(position: seq<int>, vertexLength: nat)
    requires |position| == 4 && vertexLength <= U32_MAX
    ensures var c := NewCube(position, vertexLength);
            |CubeLines(c)| == 36
            && forall k, j | 0 <= k < 12 && 0 <= j < 3 :: CubeLines(c)[3 * k + j] == GetLines(c.cube[k])[j]
  {
    var c := NewCube(position, vertexLength);
    forall k, j | 0 <= k < 12 && 0 <= j < 3
      ensures CubeLines(c)[3 * k + j] == GetLines(c.cube[k])[j]
    {
      AllLinesAt(c.cube, k, j);
    }
  }
}
