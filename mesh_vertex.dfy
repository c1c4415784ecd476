// src/mesh/vertex.rs and src/mesh/geometry/bounding_box.rs: the mesh's
// four-component vertex seen as a point (differences, adding a three-component
// vector, the inclusive box test) and the axis-aligned box it is tested
// against.  The vertex type, its scalar `*` and `/` and its product with a
// 4×4 matrix are the same as those of src/primitives.rs, so the model reuses
// `Primitives.Vertex`, `Primitives.Mul`, `Primitives.Div` and
// `Primitives.Transform` for them.

module MeshVertex {
  import P = Primitives

  /** `Vector3D`: the three-component difference of two points. */
  datatype Vector3 = Vector3(x: real, y: real, z: real)

  /** `Vertex::new(x, y, z, w)`. */
  function New(x: real, y: real, z: real, w: real): (v: P.Vertex)
    ensures v.x == x && v.y == y && v.z == z && v.w == w
  {
    P.Vertex(x, y, z, w)
  }

  /** `self.vector_from(point)`: self − point on x, y and z, the vector that carries
      point onto self. */
  function VectorFrom(a: P.Vertex, p: P.Vertex): (d: Vector3)
    ensures AddVector(p, d) == a.(w := p.w)
  {
    Vector3(a.x - p.x, a.y - p.y, a.z - p.z)
  }

  /** `self.vector_to(point)`: point − self on x, y and z, the vector that carries self
      onto point. */
  function VectorTo(a: P.Vertex, p: P.Vertex): (d: Vector3)
    ensures AddVector(a, d) == p.(w := a.w)
  {
    Vector3(p.x - a.x, p.y - a.y, p.z - a.z)
  }

  function Negate(d: Vector3): Vector3
  {
    Vector3(-d.x, -d.y, -d.z)
  }

  /** `vertex + vector` and `vertex += vector`: x, y and z move, w is kept. */
  function AddVector(v: P.Vertex, d: Vector3): P.Vertex
  {
    P.Vertex(v.x + d.x, v.y + d.y, v.z + d.z, v.w)
  }

  /** The two differences have opposite signs, and each is the other read backwards. */
  lemma VectorFromTo(a: P.Vertex, p: P.Vertex)
    ensures VectorFrom(a, p) == Negate(VectorTo(a, p))
    ensures VectorTo(a, p) == VectorFrom(p, a)
  {
  }

  /** Adding the vector to p moves a onto p in x, y and z; a's w is kept, and the vector
      from p back to a undoes the move. */
  lemma VectorToReaches(a: P.Vertex, p: P.Vertex)
    ensures AddVector(a, VectorTo(a, p)) == p.(w := a.w)
    ensures AddVector(AddVector(a, VectorTo(a, p)), VectorFrom(a, p)) == a
  {
  }

  /** `vertex * s` then `/ s` gives the vertex back for a non-zero s; w is scaled too. */
  lemma ScaleRoundTrip(v: P.Vertex, s: real)
    requires s != 0.0
    ensures P.Div(P.Mul(v, s), s) == v
    ensures P.Mul(v, s).w == v.w * s
  {
    var m := P.Mul(v, s);
    assert m.x / s == v.x && m.y / s == v.y && m.z / s == v.z && m.w / s == v.w;
  }

  // ------------------------------------------------------------ BoundingBox

  /** `BoundingBox { xmin, xmax, ymin, ymax, zmin, zmax }`. */
  datatype BoundingBox = BoundingBox(xmin: real, xmax: real, ymin: real, ymax: real, zmin: real, zmax: real)

  /** `BoundingBox::new(p1, p2)` from two `Point<3>` corners: per axis the smaller
      coordinate is the min, the larger the max, p1's taken on a tie. */
  function NewBox(p1: seq<real>, p2: seq<real>): (b: BoundingBox)
    requires |p1| == 3 && |p2| == 3
    ensures b.xmin <= b.xmax && {b.xmin, b.xmax} == {p1[0], p2[0]}
    ensures b.ymin <= b.ymax && {b.ymin, b.ymax} == {p1[1], p2[1]}
    ensures b.zmin <= b.zmax && {b.zmin, b.zmax} == {p1[2], p2[2]}
  {
    var (xmin, xmax) := if p1[0] <= p2[0] then (p1[0], p2[0]) else (p2[0], p1[0]);
    var (ymin, ymax) := if p1[1] <= p2[1] then (p1[1], p2[1]) else (p2[1], p1[1]);
    var (zmin, zmax) := if p1[2] <= p2[2] then (p1[2], p2[2]) else (p2[2], p1[2]);
    BoundingBox(xmin, xmax, ymin, ymax, zmin, zmax)
  }

  /** `vertex.bound_by(bbox)`: inclusive on x, y and z; w plays no part. */
  predicate BoundBy(v: P.Vertex, b: BoundingBox)
  {
    b.xmin <= v.x && v.x <= b.xmax && b.ymin <= v.y && v.y <= b.ymax && b.zmin <= v.z && v.z <= b.zmax
  }

  /** The point with the three coordinates of c and the given w. */
  function At(c: seq<real>, w: real): P.Vertex
    requires |c| == 3
  {
    P.Vertex(c[0], c[1], c[2], w)
  }

  /** Each axis is ordered, the box does not depend on the order of its corners, and an
      axis on which the corners agree collapses to that single value. */
  lemma NewBoxShape(p1: seq<real>, p2: seq<real>)
    requires |p1| == 3 && |p2| == 3
    ensures var b := NewBox(p1, p2);
            b.xmin <= b.xmax && b.ymin <= b.ymax && b.zmin <= b.zmax
    ensures NewBox(p1, p2) == NewBox(p2, p1)
    ensures p1[0] == p2[0] ==> NewBox(p1, p2).xmin == NewBox(p1, p2).xmax == p1[0]
    ensures p1[1] == p2[1] ==> NewBox(p1, p2).ymin == NewBox(p1, p2).ymax == p1[1]
    ensures p1[2] == p2[2] ==> NewBox(p1, p2).zmin == NewBox(p1, p2).zmax == p1[2]
  {
  }

  /** A point is bound by the box of two corners iff each coordinate lies between the
      corners' coordinates, in either order; so both corners themselves are bound, with
      any w. */
  lemma BoundByCorners(p1: seq<real>, p2: seq<real>, v: P.Vertex)
    requires |p1| == 3 && |p2| == 3
    ensures BoundBy(v, NewBox(p1, p2)) <==>
              (p1[0] <= v.x <= p2[0] || p2[0] <= v.x <= p1[0])
              && (p1[1] <= v.y <= p2[1] || p2[1] <= v.y <= p1[1])
              && (p1[2] <= v.z <= p2[2] || p2[2] <= v.z <= p1[2])
    ensures BoundBy(At(p1, v.w), NewBox(p1, p2)) && BoundBy(At(p2, v.w), NewBox(p1, p2))
  {
  }

  /** `BBox<D>`: one inclusive range per axis. */
  datatype BBox = BBox(ranges: seq<(real, real)>)

  /** `BBox::bounds(point)`: the coordinates are zipped with the ranges, so only the
      shorter of the two is walked, and each coordinate must lie in `min..=max`. */
  predicate Bounds(b: BBox, point: seq<real>)
  {
    forall k :: 0 <= k < |point| && k < |b.ranges| ==> b.ranges[k].0 <= point[k] <= b.ranges[k].1
  }

  /** The three ranges of a `BoundingBox`, as a `BBox<3>`. */
  function Ranges(b: BoundingBox): BBox
  {
    BBox([(b.xmin, b.xmax), (b.ymin, b.ymax), (b.zmin, b.zmax)])
  }

  /** On three axes the two box types agree: `bounds` of the x, y, z coordinates is
      `bound_by` of the vertex. */
  lemma BoundsAgree(b: BoundingBox, v: P.Vertex)
    ensures Bounds(Ranges(b), [v.x, v.y, v.z]) <==> BoundBy(v, b)
  {
    var r := Ranges(b).ranges;
    var c := [v.x, v.y, v.z];
    if Bounds(Ranges(b), c) {
      assert r[0].0 <= c[0] <= r[0].1;
      assert r[1].0 <= c[1] <= r[1].1;
      assert r[2].0 <= c[2] <= r[2].1;
    }
  }

  /** A coordinate beyond the ranges is never tested, and an empty point is bound by
      anything. */
  lemma BoundsShorter(b: BBox, point: seq<real>, extra: real)
    requires |point| == |b.ranges|
    ensures Bounds(b, point + [extra]) == Bounds(b, point)
    ensures Bounds(b, [])
  {
    var q := point + [extra];
    if Bounds(b, point) {
      forall k | 0 <= k < |q| && k < |b.ranges| ensures b.ranges[k].0 <= q[k] <= b.ranges[k].1 {
        assert q[k] == point[k];
      }
    }
    if Bounds(b, q) {
      forall k | 0 <= k < |point| && k < |b.ranges| ensures b.ranges[k].0 <= point[k] <= b.ranges[k].1 {
        assert q[k] == point[k];
      }
    }
  }

  /** `BoundingBox::new([-1, -1, -1], [1, 1, 1])`, the NDC cube of src/mesh/mesh.rs. */
  function NdcBox(): BoundingBox
  {
    NewBox([-1.0, -1.0, -1.0], [1.0, 1.0, 1.0])
  }

  /** The inclusive NDC test of src/mesh/mesh.rs. */
  predicate InNdcBox(v: P.Vertex)
  {
    BoundBy(v, NdcBox())
  }

  /** The closed cube test holds inside and on the faces; the strict `in_ndc_space` of
      src/primitives.rs implies it, but not conversely: a vertex on a face passes only the
      closed test. */
  lemma NdcBoxAgainstStrict(v: P.Vertex)
    ensures InNdcBox(v) <==> -1.0 <= v.x <= 1.0 && -1.0 <= v.y <= 1.0 && -1.0 <= v.z <= 1.0
    ensures P.InNdcSpace(v) ==> InNdcBox(v)
    ensures InNdcBox(P.Vertex(1.0, 0.0, 0.0, v.w)) && !P.InNdcSpace(P.Vertex(1.0, 0.0, 0.0, v.w))
  {
  }
}
