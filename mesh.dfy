// src/mesh/mesh.rs: a face-vertex mesh whose polygons index into a vertex list
// and a parallel normal list; the built-in cube; the per-frame pipeline that
// runs on a clone (transform, normals, projection to NDC, the visibility filter,
// the screen mapping); and the iterator that resolves index polygons into
// vertices and normals.  The loops that rewrite the lists are written once, as
// methods on sequence values, and src/mesh/mesh_transform.rs (module
// MeshLegacy) runs the same loops.

module Mesh {
  import opened Numeric
  import opened Matrix
  import P = Primitives
  import MV = MeshVertex
  import Ph = Physics

  /** `IndexPoly`: three vertex indices and a normal index. */
  type IndexPoly = P.Polygon<nat>

  /** `RefPoly`: a polygon with its vertices and its normal looked up. */
  datatype Face<N> = Face(a: P.Vertex, b: P.Vertex, c: P.Vertex, normal: N)

  /** The three vertex indices are valid into a list of nv vertices. */
  predicate Indexed(p: IndexPoly, nv: nat)
  {
    p.p1 < nv && p.p2 < nv && p.p3 < nv
  }

  predicate AllIndexed(ps: seq<IndexPoly>, nv: nat)
  {
    forall k :: 0 <= k < |ps| ==> Indexed(ps[k], nv)
  }

  // ------------------------------------------------------------ load_cube

  /** The eight corners `load_cube` pushes, at ±edge/2 with w = 1. */
  function CubeVertices(edge: real): seq<P.Vertex>
  {
    var pos := edge / 2.0;
    var neg := -edge / 2.0;
    [P.Vertex(neg, neg, pos, 1.0), P.Vertex(pos, neg, pos, 1.0),
     P.Vertex(neg, neg, neg, 1.0), P.Vertex(pos, neg, neg, 1.0),
     P.Vertex(neg, pos, pos, 1.0), P.Vertex(pos, pos, pos, 1.0),
     P.Vertex(neg, pos, neg, 1.0), P.Vertex(pos, pos, neg, 1.0)]
  }

  /** The twelve triangles `load_cube` pushes; triangle k names normal k. */
  const CubePolygons: seq<IndexPoly> :=
    [P.Polygon(2, 6, 7, 0), P.Polygon(2, 7, 3, 1), P.Polygon(3, 7, 5, 2), P.Polygon(3, 5, 1, 3),
     P.Polygon(1, 5, 4, 4), P.Polygon(1, 4, 0, 5), P.Polygon(0, 4, 6, 6), P.Polygon(0, 6, 2, 7),
     P.Polygon(6, 4, 5, 8), P.Polygon(6, 5, 7, 9), P.Polygon(0, 2, 3, 10), P.Polygon(0, 3, 1, 11)]

  /** ±half by the sign bit. */
  function Side(positive: bool, edge: real): real
  {
    if positive then edge / 2.0 else -edge / 2.0
  }

  /** Corner i has x positive for odd i, y positive from i = 4 on, and z positive when
      bit 1 of i is clear; every corner has w = 1. */
  lemma CubeCorners(edge: real)
    ensures |CubeVertices(edge)| == 8
    ensures forall i :: 0 <= i < 8 ==>
              CubeVertices(edge)[i] == P.Vertex(Side(i % 2 == 1, edge), Side(i >= 4, edge), Side((i / 2) % 2 == 0, edge), 1.0)
  {
    var v := CubeVertices(edge);
    forall i | 0 <= i < 8
      ensures v[i] == P.Vertex(Side(i % 2 == 1, edge), Side(i >= 4, edge), Side((i / 2) % 2 == 0, edge), 1.0)
    {
      assert i == 0 || i == 1 || i == 2 || i == 3 || i == 4 || i == 5 || i == 6 || i == 7;
    }
  }

  /** For a non-zero edge the eight corners are distinct. */
  lemma CubeCornersDistinct(edge: real)
    requires edge != 0.0
    ensures forall i, j :: 0 <= i < j < 8 ==> CubeVertices(edge)[i] != CubeVertices(edge)[j]
  {
    CubeCorners(edge);
    assert edge / 2.0 != -edge / 2.0;
  }

  /** There are twelve triangles, triangle k names normal k, every vertex index is below
      8, and the three corners of each triangle lie on one face of the cube. */
  lemma CubeTriangles(edge: real)
    ensures |CubePolygons| == 12
    ensures forall k :: 0 <= k < 12 ==> CubePolygons[k].normal == k && Indexed(CubePolygons[k], 8)
    ensures forall k :: 0 <= k < 12 ==> OnOneFace(CubeVertices(edge), CubePolygons[k])
  {
  }

  /** The three corners share an x, a y or a z. */
  predicate OnOneFace(vs: seq<P.Vertex>, p: IndexPoly)
    requires Indexed(p, |vs|)
  {
    var a, b, c := vs[p.p1], vs[p.p2], vs[p.p3];
    (a.x == b.x == c.x) || (a.y == b.y == c.y) || (a.z == b.z == c.z)
  }

  /** n zero normals. */
  function Zeros(n: nat): (r: seq<MV.Vector3>)
    ensures |r| == n && forall i :: 0 <= i < n ==> r[i] == MV.Vector3(0.0, 0.0, 0.0)
  {
    seq(n, _ => MV.Vector3(0.0, 0.0, 0.0))
  }

  // ------------------------------------------------------------ find_normals

  /** The polygon's indices are valid into nv vertices and nn normals. */
  predicate Nameable(p: IndexPoly, nv: nat, nn: nat)
  {
    Indexed(p, nv) && p.normal < nn
  }

  /** The normal list after writing, polygon by polygon in list order, the normal of each
      polygon's three vertices into the slot it names; `None` where an index is out of range
      (a panic).  The normal itself, which the source computes with a square root, is the
      parameter normalOf. */
  function Normalled<N>(vs: seq<P.Vertex>, ns: seq<N>, ps: seq<IndexPoly>,
                        normalOf: (P.Vertex, P.Vertex, P.Vertex) -> N): (r: Option<seq<N>>)
    ensures r.Some? ==> |r.value| == |ns|
    decreases |ps|
  {
    if |ps| == 0 then Some(ns)
    else
      var prev := Normalled(vs, ns, ps[..|ps| - 1], normalOf);
      var p := ps[|ps| - 1];
      if prev.None? || !Nameable(p, |vs|, |ns|) then None
      else Some(prev.value[p.normal := normalOf(vs[p.p1], vs[p.p2], vs[p.p3])])
  }

  /** The writes succeed exactly when every polygon's indices are in range. */
  lemma {:induction false} NormalledSomeIff<N>(vs: seq<P.Vertex>, ns: seq<N>, ps: seq<IndexPoly>,
                                               normalOf: (P.Vertex, P.Vertex, P.Vertex) -> N)
    ensures Normalled(vs, ns, ps, normalOf).Some? <==> forall k :: 0 <= k < |ps| ==> Nameable(ps[k], |vs|, |ns|)
    decreases |ps|
  {
    if |ps| > 0 {
      var front := ps[..|ps| - 1];
      NormalledSomeIff(vs, ns, front, normalOf);
      assert forall k :: 0 <= k < |front| ==> front[k] == ps[k];
    }
  }

  /** Exactly the named slots are written: a slot no polygon names keeps its old normal,
      and a named slot holds the normal of the last polygon naming it. */
  lemma {:induction false} NormalledSlot<N>(vs: seq<P.Vertex>, ns: seq<N>, ps: seq<IndexPoly>,
                                            normalOf: (P.Vertex, P.Vertex, P.Vertex) -> N, j: nat)
    requires Normalled(vs, ns, ps, normalOf).Some? && j < |ns|
    ensures (forall k :: 0 <= k < |ps| ==> ps[k].normal != j) ==> Normalled(vs, ns, ps, normalOf).value[j] == ns[j]
    ensures forall k :: 0 <= k < |ps| && ps[k].normal == j && (forall l :: k < l < |ps| ==> ps[l].normal != j) ==>
              Indexed(ps[k], |vs|) && Normalled(vs, ns, ps, normalOf).value[j] == normalOf(vs[ps[k].p1], vs[ps[k].p2], vs[ps[k].p3])
    decreases |ps|
  {
    if |ps| > 0 {
      var n := |ps| - 1;
      var front := ps[..n];
      assert forall k :: 0 <= k < n ==> front[k] == ps[k];
      NormalledSlot(vs, ns, front, normalOf, j);
      NormalledSomeIff(vs, ns, ps, normalOf);
    }
  }

  /** `find_normals`'s loop over the polygons. */
  method ComputeNormals<N>(vs: seq<P.Vertex>, ns: seq<N>, ps: seq<IndexPoly>,
                           normalOf: (P.Vertex, P.Vertex, P.Vertex) -> N) returns (ok: bool, r: seq<N>)
    ensures ok == Normalled(vs, ns, ps, normalOf).Some?
    ensures ok ==> r == Normalled(vs, ns, ps, normalOf).value
  {
    r := ns;
    for k := 0 to |ps|
      invariant Normalled(vs, ns, ps[..k], normalOf) == Some(r)
    {
      var p := ps[k];
      assert ps[..k + 1][..k] == ps[..k];
      if !(p.p1 < |vs| && p.p2 < |vs| && p.p3 < |vs| && p.normal < |r|) {
        NormalledSomeIff(vs, ns, ps, normalOf);
        return false, r;
      }
      r := r[p.normal := normalOf(vs[p.p1], vs[p.p2], vs[p.p3])];
    }
    assert ps[..|ps|] == ps;
    ok := true;
  }

  // ------------------------------------------------------------ project_to_ndc

  /** `*vertex = *vertex * m; *vertex /= vertex[W]`, or `None` where w is 0 and the
      division leaves non-finite coordinates. */
  function NdcVertex(v: P.Vertex, m: P.TransformMatrix): Option<P.Vertex>
    requires P.WellFormed(m)
  {
    var t := P.Transform(v, m);
    if t.w == 0.0 then None else Some(P.Div(t, t.w))
  }

  /** The projected vertex has w = 1 and, scaled back by the clip-space w, is the
      transformed vertex. */
  lemma NdcVertexMeaning(v: P.Vertex, m: P.TransformMatrix)
    requires P.WellFormed(m)
    ensures NdcVertex(v, m).Some? <==> P.Transform(v, m).w != 0.0
    ensures NdcVertex(v, m).Some? ==>
              NdcVertex(v, m).value.w == 1.0 && P.Mul(NdcVertex(v, m).value, P.Transform(v, m).w) == P.Transform(v, m)
  {
    var t := P.Transform(v, m);
    if t.w != 0.0 {
      Rescale(t.x, t.w);
      Rescale(t.y, t.w);
      Rescale(t.z, t.w);
      Rescale(t.w, t.w);
    }
  }

  /** Dividing by d and multiplying back, or the other way round, is the identity. */
  lemma Rescale(a: real, d: real)
    requires d != 0.0
    ensures (a / d) * d == a && (a * d) / d == a && d / d == 1.0
  {
  }

  predicate Projectable(vs: seq<P.Vertex>, m: P.TransformMatrix)
    requires P.WellFormed(m)
  {
    forall i :: 0 <= i < |vs| ==> NdcVertex(vs[i], m).Some?
  }

  function NdcAll(vs: seq<P.Vertex>, m: P.TransformMatrix): (r: seq<P.Vertex>)
    requires P.WellFormed(m) && Projectable(vs, m)
  {
    seq(|vs|, i requires 0 <= i < |vs| => NdcVertex(vs[i], m).value)
  }

  /** After the projection every vertex has w = 1. */
  lemma NdcAllHomogenised(vs: seq<P.Vertex>, m: P.TransformMatrix)
    requires P.WellFormed(m) && Projectable(vs, m)
    ensures |NdcAll(vs, m)| == |vs| && forall i :: 0 <= i < |vs| ==> NdcAll(vs, m)[i].w == 1.0
  {
    forall i | 0 <= i < |vs| ensures NdcAll(vs, m)[i].w == 1.0 {
      NdcVertexMeaning(vs[i], m);
    }
  }

  /** `project_to_ndc`'s loop over the vertices. */
  method ProjectAll(vs: seq<P.Vertex>, m: P.TransformMatrix) returns (ok: bool, r: seq<P.Vertex>)
    requires P.WellFormed(m)
    ensures ok == Projectable(vs, m)
    ensures ok ==> r == NdcAll(vs, m)
  {
    r := vs;
    for i := 0 to |vs|
      invariant |r| == |vs|
      invariant forall j :: 0 <= j < i ==> NdcVertex(vs[j], m) == Some(r[j])
      invariant forall j :: i <= j < |vs| ==> r[j] == vs[j]
    {
      var t := P.Transform(r[i], m);
      if t.w == 0.0 {
        return false, r;
      }
      r := r[i := P.Div(t, t.w)];
    }
    ok := true;
  }

  // ------------------------------------------------------------ polygons_in_view

  /** At least one of the polygon's vertices passes the test. */
  predicate Seen(vs: seq<P.Vertex>, p: IndexPoly, keep: P.Vertex -> bool)
    requires Indexed(p, |vs|)
  {
    keep(vs[p.p1]) || keep(vs[p.p2]) || keep(vs[p.p3])
  }

  /** The polygons with at least one vertex passing the test, in list order. */
  function Kept(vs: seq<P.Vertex>, ps: seq<IndexPoly>, keep: P.Vertex -> bool): seq<IndexPoly>
    requires AllIndexed(ps, |vs|)
    decreases |ps|
  {
    if |ps| == 0 then []
    else
      var front := ps[..|ps| - 1];
      assert forall k :: 0 <= k < |front| ==> front[k] == ps[k];
      Kept(vs, front, keep) + (if Seen(vs, ps[|ps| - 1], keep) then [ps[|ps| - 1]] else [])
  }

  /** A polygon is kept iff it is listed and has a vertex passing the test; no more are
      kept than listed. */
  lemma {:induction false} KeptMembers(vs: seq<P.Vertex>, ps: seq<IndexPoly>, keep: P.Vertex -> bool)
    requires AllIndexed(ps, |vs|)
    ensures |Kept(vs, ps, keep)| <= |ps|
    ensures forall p :: p in Kept(vs, ps, keep) <==> p in ps && Seen(vs, p, keep)
    decreases |ps|
  {
    if |ps| > 0 {
      var front := ps[..|ps| - 1];
      assert forall k :: 0 <= k < |front| ==> front[k] == ps[k];
      KeptMembers(vs, front, keep);
      assert ps == front + [ps[|ps| - 1]];
    }
  }

  /** Filtering a list in two pieces gives the two filtered pieces in order. */
  lemma {:induction false} KeptAppend(vs: seq<P.Vertex>, ps: seq<IndexPoly>, qs: seq<IndexPoly>, keep: P.Vertex -> bool)
    requires AllIndexed(ps, |vs|) && AllIndexed(qs, |vs|)
    ensures AllIndexed(ps + qs, |vs|)
    ensures Kept(vs, ps + qs, keep) == Kept(vs, ps, keep) + Kept(vs, qs, keep)
    decreases |qs|
  {
    assert forall k :: 0 <= k < |ps + qs| ==> (ps + qs)[k] == if k < |ps| then ps[k] else qs[k - |ps|];
    if |qs| > 0 {
      var front := qs[..|qs| - 1];
      assert forall k :: 0 <= k < |front| ==> front[k] == qs[k];
      KeptAppend(vs, ps, front, keep);
      assert (ps + qs)[..|ps + qs| - 1] == ps + front;
    } else {
      assert ps + qs == ps;
    }
  }

  /** A test that lets through at least what another does keeps at least those polygons. */
  lemma KeptWeaker(vs: seq<P.Vertex>, ps: seq<IndexPoly>, strict: P.Vertex -> bool, loose: P.Vertex -> bool)
    requires AllIndexed(ps, |vs|)
    requires forall v :: strict(v) ==> loose(v)
    ensures forall p :: p in Kept(vs, ps, strict) ==> p in Kept(vs, ps, loose)
  {
    KeptMembers(vs, ps, strict);
    KeptMembers(vs, ps, loose);
  }

  /** `polygons_in_view`'s loop: polygons with a vertex passing the test are pushed onto
      `visible`, which is not cleared first. */
  method FilterVisible(vs: seq<P.Vertex>, ps: seq<IndexPoly>, keep: P.Vertex -> bool, visible: seq<IndexPoly>)
    returns (ok: bool, r: seq<IndexPoly>)
    ensures ok == AllIndexed(ps, |vs|)
    ensures ok ==> r == visible + Kept(vs, ps, keep)
  {
    r := visible;
    for k := 0 to |ps|
      invariant AllIndexed(ps[..k], |vs|)
      invariant r == visible + Kept(vs, ps[..k], keep)
    {
      var p := ps[k];
      assert ps[..k + 1][..k] == ps[..k];
      if !(p.p1 < |vs| && p.p2 < |vs| && p.p3 < |vs|) {
        return false, r;
      }
      assert ps[..k + 1][k] == p;
      if keep(vs[p.p1]) || keep(vs[p.p2]) || keep(vs[p.p3]) {
        r := r + [p];
      }
    }
    assert ps[..|ps|] == ps;
    ok := true;
  }

  // ------------------------------------------------------------ project_to_screen

  /** x → (x + 1)·(width / 2), y → (y + 1)·(height / 2), z → 1000 − z·1000; w is kept. */
  function ScreenVertex(v: P.Vertex, width: real, height: real): P.Vertex
  {
    v.(x := (v.x + 1.0) * (width / 2.0), y := (v.y + 1.0) * (height / 2.0), z := 1000.0 - v.z * 1000.0)
  }

  /** The mapping can be undone on a non-degenerate screen; NDC [-1, 1] lands on
      [0, width] and [0, height]; depth [-1, 1] lands on [0, 2000], reversed, so nearer
      (smaller) NDC depth gives a larger screen depth. */
  lemma ScreenVertexMeaning(v: P.Vertex, width: real, height: real)
    ensures ScreenVertex(v, width, height).w == v.w
    ensures width != 0.0 && height != 0.0 ==>
              var s := ScreenVertex(v, width, height);
              v == P.Vertex(s.x / (width / 2.0) - 1.0, s.y / (height / 2.0) - 1.0, (1000.0 - s.z) / 1000.0, s.w)
    ensures 0.0 <= width && -1.0 <= v.x <= 1.0 ==> 0.0 <= ScreenVertex(v, width, height).x <= width
    ensures 0.0 <= height && -1.0 <= v.y <= 1.0 ==> 0.0 <= ScreenVertex(v, width, height).y <= height
    ensures -1.0 <= v.z <= 1.0 ==> 0.0 <= ScreenVertex(v, width, height).z <= 2000.0
  {
    if width != 0.0 && height != 0.0 {
      Rescale(v.x + 1.0, width / 2.0);
      Rescale(v.y + 1.0, height / 2.0);
    }
    ScreenXBound(v, width, height);
    ScreenYBound(v, width, height);
  }

  lemma ScreenXBound(v: P.Vertex, width: real, height: real)
    ensures 0.0 <= width && -1.0 <= v.x <= 1.0 ==> 0.0 <= ScreenVertex(v, width, height).x <= width
  {
    if 0.0 <= width && -1.0 <= v.x <= 1.0 {
      MulNonNegative(v.x + 1.0, width / 2.0);
      MulAtMostTwice(v.x + 1.0, width / 2.0);
    }
  }

  lemma ScreenYBound(v: P.Vertex, width: real, height: real)
    ensures 0.0 <= height && -1.0 <= v.y <= 1.0 ==> 0.0 <= ScreenVertex(v, width, height).y <= height
  {
    if 0.0 <= height && -1.0 <= v.y <= 1.0 {
      MulNonNegative(v.y + 1.0, height / 2.0);
      MulAtMostTwice(v.y + 1.0, height / 2.0);
    }
  }



  /** Screen depth falls as NDC depth rises. */
  lemma ScreenDepthReversed(a: P.Vertex, b: P.Vertex, width: real, height: real)
    requires a.z < b.z
    ensures ScreenVertex(a, width, height).z > ScreenVertex(b, width, height).z
  {
  }

  function ScreenAll(vs: seq<P.Vertex>, width: real, height: real): (r: seq<P.Vertex>)
  {
    seq(|vs|, i requires 0 <= i < |vs| => ScreenVertex(vs[i], width, height))
  }

  /** `project_to_screen`'s loop over the vertices. */
  method ScreenProject(vs: seq<P.Vertex>, width: real, height: real) returns (r: seq<P.Vertex>)
    ensures |r| == |vs| && forall i :: 0 <= i < |vs| ==> r[i] == ScreenVertex(vs[i], width, height)
    ensures r == ScreenAll(vs, width, height)
  {
    var screenWidthMul := width / 2.0;
    var screenHeightMul := height / 2.0;
    var screenDepthMul := 1000.0;
    r := vs;
    for i := 0 to |vs|
      invariant |r| == |vs|
      invariant forall j :: 0 <= j < i ==> r[j] == ScreenVertex(vs[j], width, height)
      invariant forall j :: i <= j < |vs| ==> r[j] == vs[j]
    {
      var v := r[i];
      assert v == vs[i];
      v := v.(x := (v.x + 1.0) * screenWidthMul);
      v := v.(y := (v.y + 1.0) * screenHeightMul);
      v := v.(z := screenDepthMul - v.z * screenDepthMul);
      assert v.y == (vs[i].y + 1.0) * screenHeightMul;
      assert screenHeightMul == height / 2.0;
      assert v == ScreenVertex(vs[i], width, height);
      r := r[i := v];
    }
  }

  // ------------------------------------------------------------ apply_transformations

  /** Each vertex rotated (row vector times the rotation matrix) and then moved by the
      position vector, which keeps its w. */
  function Transformed(vs: seq<P.Vertex>, rotation: P.TransformMatrix, d: MV.Vector3): (r: seq<P.Vertex>)
    requires P.WellFormed(rotation)
  {
    seq(|vs|, i requires 0 <= i < |vs| => MV.AddVector(P.Transform(vs[i], rotation), d))
  }

  /** `Vertex * Matrix4X4` by the identity is the vertex itself. */
  lemma TransformIdentity(v: P.Vertex)
    ensures P.WellFormed(P.TransformMatrix(Identity(4)))
    ensures P.Transform(v, P.TransformMatrix(Identity(4))) == v
  {
    P.TransformIsRowTimes(v, P.TransformMatrix(Identity(4)));
    RowTimesIdentity(P.Coords(v), 4);
    P.CoordsRoundTrip(v);
    P.CoordsRoundTrip(P.Transform(v, P.TransformMatrix(Identity(4))));
  }

  /** The translation does not touch w, and with no rotation and the object at the origin
      the vertices are left as they are. */
  lemma TransformedMeaning(vs: seq<P.Vertex>, rotation: P.TransformMatrix, d: MV.Vector3)
    requires P.WellFormed(rotation)
    ensures forall i :: 0 <= i < |vs| ==> Transformed(vs, rotation, d)[i].w == P.Transform(vs[i], rotation).w
    ensures P.WellFormed(P.TransformMatrix(Identity(4)))
    ensures Transformed(vs, P.TransformMatrix(Identity(4)), MV.Vector3(0.0, 0.0, 0.0)) == vs
  {
    var id := P.TransformMatrix(Identity(4));
    TransformIdentity(P.Vertex(0.0, 0.0, 0.0, 0.0));
    forall i | 0 <= i < |vs| ensures Transformed(vs, id, MV.Vector3(0.0, 0.0, 0.0))[i] == vs[i] {
      TransformIdentity(vs[i]);
    }
  }

  /** `apply_transformations`'s loop over the vertices. */
  method TransformAll(vs: seq<P.Vertex>, rotation: P.TransformMatrix, d: MV.Vector3) returns (r: seq<P.Vertex>)
    requires P.WellFormed(rotation)
    ensures r == Transformed(vs, rotation, d)
  {
    r := vs;
    for i := 0 to |vs|
      invariant |r| == |vs|
      invariant forall j :: 0 <= j < i ==> r[j] == MV.AddVector(P.Transform(vs[j], rotation), d)
      invariant forall j :: i <= j < |vs| ==> r[j] == vs[j]
    {
      var v := P.Transform(r[i], rotation);
      v := MV.AddVector(v, d);
      r := r[i := v];
    }
  }

  // ------------------------------------------------------------ the pipeline as a whole

  /** What `run_pipeline` leaves in the clone: its vertices, its normals and its visible
      polygons, or `None` where a step panics or a w of 0 leaves non-finite values. */
  function Pipelined<N>(vs: seq<P.Vertex>, ns: seq<N>, ps: seq<IndexPoly>, visible: seq<IndexPoly>,
                        moved: seq<P.Vertex>, projection: P.TransformMatrix, width: real, height: real,
                        normalOf: (P.Vertex, P.Vertex, P.Vertex) -> N, keep: P.Vertex -> bool)
    : Option<(seq<P.Vertex>, seq<N>, seq<IndexPoly>)>
    requires P.WellFormed(projection)
  {
    var normals := Normalled(moved, ns, ps, normalOf);
    if normals.None? || !Projectable(moved, projection) then None
    else
      var ndc := NdcAll(moved, projection);
      if !AllIndexed(ps, |ndc|) then None
      else Some((ScreenAll(ndc, width, height), normals.value, visible + Kept(ndc, ps, keep)))
  }

  /** The clone's new visible polygons are polygons of the mesh, each with a vertex that
      passed the test in NDC space, and its normal list keeps its length. */
  lemma PipelinedShows<N>(vs: seq<P.Vertex>, ns: seq<N>, ps: seq<IndexPoly>, visible: seq<IndexPoly>,
                          moved: seq<P.Vertex>, projection: P.TransformMatrix, width: real, height: real,
                          normalOf: (P.Vertex, P.Vertex, P.Vertex) -> N, keep: P.Vertex -> bool)
    requires P.WellFormed(projection) && |moved| == |vs|
    requires Pipelined(vs, ns, ps, visible, moved, projection, width, height, normalOf, keep).Some?
    ensures var r := Pipelined(vs, ns, ps, visible, moved, projection, width, height, normalOf, keep).value;
            |r.0| == |vs| && |r.1| == |ns| && |r.2| >= |visible| && r.2[..|visible|] == visible
            && forall p :: p in r.2[|visible|..] ==> p in ps && Seen(NdcAll(moved, projection), p, keep)
  {
    var ndc := NdcAll(moved, projection);
    KeptMembers(ndc, ps, keep);
    var r := Pipelined(vs, ns, ps, visible, moved, projection, width, height, normalOf, keep).value;
    assert r.2[|visible|..] == Kept(ndc, ps, keep);
  }

  // ------------------------------------------------------------ PolyIterator

  /** The polygon with its vertices and normal looked up, or `None` where an index is out
      of range (a panic). */
  function Resolve<N>(vs: seq<P.Vertex>, ns: seq<N>, p: IndexPoly): Option<Face<N>>
  {
    if Nameable(p, |vs|, |ns|) then Some(Face(vs[p.p1], vs[p.p2], vs[p.p3], ns[p.normal])) else None
  }

  /** Everything the iterator yields before `None`, in order; `None` where it panics. */
  function Faces<N>(vs: seq<P.Vertex>, ns: seq<N>, ps: seq<IndexPoly>): Option<seq<Face<N>>>
    decreases |ps|
  {
    if |ps| == 0 then Some([])
    else
      var f := Resolve(vs, ns, ps[0]);
      var rest := Faces(vs, ns, ps[1..]);
      if f.None? || rest.None? then None else Some([f.value] + rest.value)
  }

  /** Every listed polygon is yielded exactly once and in list order, with its own
      vertices and its own normal, provided all of them resolve. */
  lemma {:induction false} FacesInOrder<N>(vs: seq<P.Vertex>, ns: seq<N>, ps: seq<IndexPoly>)
    ensures Faces(vs, ns, ps).Some? <==> forall k :: 0 <= k < |ps| ==> Nameable(ps[k], |vs|, |ns|)
    ensures Faces(vs, ns, ps).Some? ==>
              |Faces(vs, ns, ps).value| == |ps|
              && forall k :: 0 <= k < |ps| ==>
                   Faces(vs, ns, ps).value[k] == Face(vs[ps[k].p1], vs[ps[k].p2], vs[ps[k].p3], ns[ps[k].normal])
    decreases |ps|
  {
    if |ps| > 0 {
      FacesInOrder(vs, ns, ps[1..]);
      assert forall k :: 1 <= k < |ps| ==> ps[1..][k - 1] == ps[k];
    }
  }

  /** `PolyIterator`: the shared vertex and normal lists and the polygons not yet
      yielded. */
  class PolyIterator<N> {
    var vertexList: seq<P.Vertex>
    var normalList: seq<N>
    var polygonList: seq<IndexPoly>

    constructor (vs: seq<P.Vertex>, ns: seq<N>, ps: seq<IndexPoly>)
      ensures vertexList == vs && normalList == ns && polygonList == ps
    {
      vertexList := vs;
      normalList := ns;
      polygonList := ps;
    }

    /** `next`: `None` once the polygons run out; otherwise the first polygon is split off
        and resolved.  ok is false where an index is out of range (a panic). */
    method Next() returns (item: Option<Face<N>>, ok: bool)
      modifies this
      ensures vertexList == old(vertexList) && normalList == old(normalList)
      ensures old(polygonList) == [] ==> item == None && ok && polygonList == []
      ensures old(polygonList) != [] ==>
                polygonList == old(polygonList)[1..]
                && ok == Nameable(old(polygonList)[0], |vertexList|, |normalList|)
                && (ok ==> item == Resolve(vertexList, normalList, old(polygonList)[0]) && item.Some?)
    {
      if |polygonList| == 0 {
        return None, true;
      }
      var p := polygonList[0];
      polygonList := polygonList[1..];
      if !(p.p1 < |vertexList| && p.p2 < |vertexList| && p.p3 < |vertexList| && p.normal < |normalList|) {
        return None, false;
      }
      item := Some(Face(vertexList[p.p1], vertexList[p.p2], vertexList[p.p3], normalList[p.normal]));
      ok := true;
    }
  }

  // ------------------------------------------------------------ Mesh

  /** `Mesh`: vertices, one normal per polygon's normal index, the polygons, the polygons
      found visible, and the physical state. */
  class Mesh {
    var verticies: seq<P.Vertex>
    var normals: seq<MV.Vector3>
    var polygons: seq<IndexPoly>
    var visiblePolygons: seq<IndexPoly>
    var physics: Ph.PhysicalState

    /** `Mesh::default`: everything empty, at the origin with no rotation. */
    constructor ()
      ensures verticies == [] && normals == [] && polygons == [] && visiblePolygons == []
      ensures fresh(physics) && physics.position == Ph.Origin && physics.orientation == Ph.Origin
    {
      verticies := [];
      normals := [];
      polygons := [];
      visiblePolygons := [];
      physics := new Ph.PhysicalState();
    }

    /** `self.clone()`: the lists and the physical state are copied. */
    constructor Clone(m: Mesh)
      ensures verticies == m.verticies && normals == m.normals && polygons == m.polygons
      ensures visiblePolygons == m.visiblePolygons
      ensures fresh(physics) && physics.position == m.physics.position && physics.orientation == m.physics.orientation
    {
      verticies := m.verticies;
      normals := m.normals;
      polygons := m.polygons;
      visiblePolygons := m.visiblePolygons;
      physics := new Ph.PhysicalState.Clone(m.physics);
    }

    /** `load_cube`: the eight corners and twelve triangles are appended, and then one
        zero normal is pushed for every polygon now in the list, old ones included. */
    method LoadCube(edge: real)
      modifies this
      ensures verticies == old(verticies) + CubeVertices(edge)
      ensures polygons == old(polygons) + CubePolygons
      ensures normals == old(normals) + Zeros(|old(polygons)| + 12)
      ensures visiblePolygons == old(visiblePolygons) && physics == old(physics)
    {
      verticies := verticies + CubeVertices(edge);
      polygons := polygons + CubePolygons;
      var ns := normals;
      var i := 0;
      while i < |polygons|
        invariant i <= |polygons| && ns == old(normals) + Zeros(i)
      {
        ns := ns + [MV.Vector3(0.0, 0.0, 0.0)];
        i := i + 1;
        assert ns == old(normals) + Zeros(i);
      }
      normals := ns;
    }

    /** The position as a vector from the origin. */
    function Shift(): MV.Vector3
      reads this, physics
    {
      MV.Vector3(physics.position.x, physics.position.y, physics.position.z)
    }

    /** `apply_transformations`, with the rotation matrix that the source builds from the
        orientation by sines and cosines as a parameter. */
    method ApplyTransformations(rotation: P.TransformMatrix)
      requires P.WellFormed(rotation)
      modifies this
      ensures verticies == Transformed(old(verticies), rotation, Shift())
      ensures normals == old(normals) && polygons == old(polygons) && visiblePolygons == old(visiblePolygons)
      ensures physics == old(physics)
    {
      verticies := TransformAll(verticies, rotation, Shift());
    }

    /** `find_normals`; ok is false where an index is out of range (a panic). */
    method FindNormals(normalOf: (P.Vertex, P.Vertex, P.Vertex) -> MV.Vector3) returns (ok: bool)
      modifies this
      ensures ok == Normalled(old(verticies), old(normals), polygons, normalOf).Some?
      ensures ok ==> normals == Normalled(old(verticies), old(normals), polygons, normalOf).value
      ensures verticies == old(verticies) && polygons == old(polygons) && visiblePolygons == old(visiblePolygons)
      ensures physics == old(physics)
    {
      var r;
      ok, r := ComputeNormals(verticies, normals, polygons, normalOf);
      if ok {
        normals := r;
      }
    }

    /** `project_to_ndc`; ok is false where some vertex gets w = 0. */
    method ProjectToNdc(projection: P.TransformMatrix) returns (ok: bool)
      requires P.WellFormed(projection)
      modifies this
      ensures ok == Projectable(old(verticies), projection)
      ensures ok ==> verticies == NdcAll(old(verticies), projection)
      ensures normals == old(normals) && polygons == old(polygons) && visiblePolygons == old(visiblePolygons)
      ensures physics == old(physics)
    {
      var r;
      ok, r := ProjectAll(verticies, projection);
      if ok {
        verticies := r;
      }
    }

    /** `polygons_in_view`: the closed NDC cube test, appending to the visible list; ok is
        false where an index is out of range (a panic). */
    method PolygonsInView() returns (ok: bool)
      modifies this
      ensures ok == AllIndexed(polygons, |verticies|)
      ensures ok ==> visiblePolygons == old(visiblePolygons) + Kept(verticies, polygons, MV.InNdcBox)
      ensures verticies == old(verticies) && normals == old(normals) && polygons == old(polygons)
      ensures physics == old(physics)
    {
      var r;
      ok, r := FilterVisible(verticies, polygons, MV.InNdcBox, visiblePolygons);
      if ok {
        visiblePolygons := r;
      }
    }

    /** `project_to_screen`. */
    method ProjectToScreen(width: real, height: real)
      modifies this
      ensures verticies == ScreenAll(old(verticies), width, height)
      ensures normals == old(normals) && polygons == old(polygons) && visiblePolygons == old(visiblePolygons)
      ensures physics == old(physics)
    {
      verticies := ScreenProject(verticies, width, height);
    }

    /** `run_pipeline`: every step runs on a clone, so the receiver is left as it was. */
    method RunPipeline(projection: P.TransformMatrix, width: real, height: real,
                       rotation: P.TransformMatrix, normalOf: (P.Vertex, P.Vertex, P.Vertex) -> MV.Vector3)
      returns (m: Mesh, ok: bool)
      requires P.WellFormed(projection) && P.WellFormed(rotation)
      ensures fresh(m) && fresh(m.physics)
      ensures verticies == old(verticies) && normals == old(normals) && polygons == old(polygons)
      ensures visiblePolygons == old(visiblePolygons) && physics == old(physics)
      ensures physics.position == old(physics.position) && physics.orientation == old(physics.orientation)
      ensures var moved := Transformed(verticies, rotation, Shift());
              var r := Pipelined(verticies, normals, polygons, visiblePolygons, moved, projection, width, height,
                                 normalOf, MV.InNdcBox);
              ok == r.Some? && (ok ==> m.verticies == r.value.0 && m.normals == r.value.1
                                       && m.visiblePolygons == r.value.2 && m.polygons == polygons)
    {
      m := new Mesh.Clone(this);
      m.ApplyTransformations(rotation);
      ghost var moved := m.verticies;
      ok := m.FindNormals(normalOf);
      if !ok {
        return;
      }
      ok := m.ProjectToNdc(projection);
      if !ok {
        return;
      }
      ok := m.PolygonsInView();
      if !ok {
        return;
      }
      m.ProjectToScreen(width, height);
    }

    /** `iter_all_polygons`. */
    method IterAllPolygons() returns (it: PolyIterator<MV.Vector3>)
      ensures fresh(it) && it.vertexList == verticies && it.normalList == normals && it.polygonList == polygons
    {
      it := new PolyIterator(verticies, normals, polygons);
    }

    /** `iter_visible_polygons`. */
    method IterVisiblePolygons() returns (it: PolyIterator<MV.Vector3>)
      ensures fresh(it) && it.vertexList == verticies && it.normalList == normals
      ensures it.polygonList == visiblePolygons
    {
      it := new PolyIterator(verticies, normals, visiblePolygons);
    }
  }
}
