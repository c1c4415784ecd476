// src/mesh/face_vertex.rs with polygon.rs, pipeline.rs and iter.rs: a mesh of
// 3-D points and index triangles, promoted to a homogeneous pipeline mesh that
// is transformed, given normals and visibility tags, and walked triangle by
// triangle by a positional iterator.

module FaceVertex {
  import N = Numeric
  import opened Matrix
  import opened Vector
  import Pt = Point
  import T = Transform
  import BB = BoundingBox

  /** `VIndex([usize; 3])`: the vertex indices of one triangle. */
  datatype VIndex = VIndex(i0: nat, i1: nat, i2: nat)

  /** `Mesh`: 3-D vertices and index triangles. */
  datatype Mesh = Mesh(vertex: seq<Pt.Point>, vindex: seq<VIndex>)

  /** `Visibility`, whose derived order follows the declaration: None < Partial < Full. */
  datatype Visibility = None | Partial | Full

  /** `PipeMesh`: homogeneous vertices, the same triangles, and the optional per-triangle
      normal and visibility lists the pipeline stages fill in. */
  datatype PipeMesh = PipeMesh(vertex: seq<Pt.Point>, vindex: seq<VIndex>,
                               normal: N.Option<seq<Vector>>, visible: N.Option<seq<Visibility>>)

  predicate Dimension(vs: seq<Pt.Point>, d: nat)
  {
    forall k :: 0 <= k < |vs| ==> |vs[k].c| == d
  }

  /** Every triangle names vertices that exist; indexing otherwise panics. */
  predicate IndicesValid(vertex: seq<Pt.Point>, vindex: seq<VIndex>)
  {
    forall k :: 0 <= k < |vindex| ==>
      vindex[k].i0 < |vertex| && vindex[k].i1 < |vertex| && vindex[k].i2 < |vertex|
  }

  // ------------------------------------------------------------ face_vertex.rs

  /** `start_pipeline`: every vertex becomes (x, y, z, 1), the triangles are cloned, and
      neither normals nor visibility exist yet.  The mesh itself is only read. */
  function StartPipeline(m: Mesh): (r: PipeMesh)
    requires Dimension(m.vertex, 3)
    ensures |r.vertex| == |m.vertex| && Dimension(r.vertex, 4)
    ensures forall k :: 0 <= k < |m.vertex| ==> r.vertex[k].c == m.vertex[k].c + [1.0]
    ensures r.vindex == m.vindex && r.normal == N.None && r.visible == N.None
  {
    PipeMesh(seq(|m.vertex|, k requires 0 <= k < |m.vertex| => Pt.ToHomogenous(m.vertex[k])),
             m.vindex, N.None, N.None)
  }

  /** Each pipeline vertex converts back to the mesh vertex it came from. */
  lemma StartPipelineRoundTrip(m: Mesh, k: nat)
    requires Dimension(m.vertex, 3) && k < |m.vertex|
    ensures Pt.FromHomogenous(StartPipeline(m).vertex[k]) == N.Some(m.vertex[k])
  {
    Pt.HomogenousRoundTrip(m.vertex[k]);
  }

  // --------------------------------------------------------------- polygon.rs

  function Rank(v: Visibility): nat
  {
    match v
    case None => 0
    case Partial => 1
    case Full => 2
  }

  /** The derived `<` on `Visibility`. */
  predicate Below(a: Visibility, b: Visibility)
  {
    Rank(a) < Rank(b)
  }

  /** None < Partial < Full, and the order is total and strict. */
  lemma VisibilityOrder(a: Visibility, b: Visibility)
    ensures Below(Visibility.None, Partial) && Below(Partial, Full)
    ensures !Below(a, a)
    ensures a == b || Below(a, b) || Below(b, a)
    ensures !(Below(a, b) && Below(b, a))
  {
  }

  /** `Polygon`: references to three vertices and the paired optional normal and tag. */
  datatype Polygon = Polygon(v0: Pt.Point, v1: Pt.Point, v2: Pt.Point,
                             normal: N.Option<Vector>, visible: N.Option<Visibility>)

  /** `verticies`: the three stored vertices, in order. */
  function Verticies(p: Polygon): (r: seq<Pt.Point>)
    ensures |r| == 3 && r[0] == p.v0 && r[1] == p.v1 && r[2] == p.v2
  {
    [p.v0, p.v1, p.v2]
  }

  /** `vertex_count`: the number of vertices `verticies` returns. */
  function VertexCount(p: Polygon): (n: nat)
    ensures n == |Verticies(p)|
  {
    3
  }

  // -------------------------------------------------------------- pipeline.rs

  /** One vertex of `transform`: `v *= T`, then every coordinate divided by the new w. */
  function TransformedVertex(v: Pt.Point, t: T.Transform): (r: Pt.Point)
    requires |v.c| == 4 && Shape(t.m, 4, 4)
    requires Pt.Times(v, t.m, 4).c[3] != 0.0
    ensures |r.c| == 4 && r.c[3] == 1.0
    ensures forall k :: 0 <= k < 4 ==> r.c[k] * Pt.Times(v, t.m, 4).c[3] == Pt.Times(v, t.m, 4).c[k]
  {
    var moved := Pt.Times(v, t.m, 4);
    var r := Pt.DivScalar(moved, moved.c[3]);
    assert forall k :: 0 <= k < 4 ==> r.c[k] * moved.c[3] == moved.c[k] / moved.c[3] * moved.c[3];
    r
  }

  /** No vertex lands on w = 0, where the float division would give non-finite values. */
  predicate FiniteUnder(vertex: seq<Pt.Point>, t: T.Transform)
    requires Dimension(vertex, 4) && Shape(t.m, 4, 4)
  {
    forall k :: 0 <= k < |vertex| ==> Pt.Times(vertex[k], t.m, 4).c[3] != 0.0
  }

  /** `Pipeline::transform`: every vertex in place through `TransformedVertex`; the
      triangles, normals and tags are kept, and every w is 1 afterwards. */
  method TransformMesh(pm: PipeMesh, t: T.Transform) returns (r: PipeMesh)
    requires Dimension(pm.vertex, 4) && Shape(t.m, 4, 4) && FiniteUnder(pm.vertex, t)
    ensures r.vindex == pm.vindex && r.normal == pm.normal && r.visible == pm.visible
    ensures |r.vertex| == |pm.vertex|
    ensures forall k :: 0 <= k < |pm.vertex| ==> r.vertex[k] == TransformedVertex(pm.vertex[k], t)
    ensures forall k :: 0 <= k < |pm.vertex| ==> |r.vertex[k].c| == 4 && r.vertex[k].c[3] == 1.0
  {
    var vertex := pm.vertex;
    for k := 0 to |vertex|
      invariant |vertex| == |pm.vertex|
      invariant forall i :: 0 <= i < k ==> vertex[i] == TransformedVertex(pm.vertex[i], t)
      invariant forall i :: k <= i < |vertex| ==> vertex[i] == pm.vertex[i]
    {
      vertex := vertex[k := TransformedVertex(vertex[k], t)];
    }
    r := pm.(vertex := vertex);
  }

  /** `update_normals`: one normal per triangle, in triangle order, built by `normalTo`
      (the cross product and demotion, which are not modelled) from v1 − v0 and
      v2 − v0.  The stage panics on an index past the vertex list. */
  function UpdateNormals(pm: PipeMesh, normalTo: (Vector, Vector) -> Vector): (r: N.Option<PipeMesh>)
    requires Dimension(pm.vertex, 4)
    ensures r.Some? <==> IndicesValid(pm.vertex, pm.vindex)
    ensures r.Some? ==> (r.value.vertex == pm.vertex && r.value.vindex == pm.vindex
      && r.value.visible == pm.visible && r.value.normal.Some?
      && |r.value.normal.value| == |pm.vindex|
      && (forall k :: 0 <= k < |pm.vindex| ==>
          r.value.normal.value[k] == normalTo(Pt.Diff(pm.vertex[pm.vindex[k].i1], pm.vertex[pm.vindex[k].i0]),
                                              Pt.Diff(pm.vertex[pm.vindex[k].i2], pm.vertex[pm.vindex[k].i0]))))
  {
    if !IndicesValid(pm.vertex, pm.vindex) then N.None
    else
      var vs := pm.vertex;
      var ix := pm.vindex;
      var normals := seq(|ix|, k requires 0 <= k < |ix| =>
        normalTo(Pt.Diff(vs[ix[k].i1], vs[ix[k].i0]), Pt.Diff(vs[ix[k].i2], vs[ix[k].i0])));
      N.Some(pm.(normal := N.Some(normals)))
  }

  /** The tag of one triangle from the bounds test of its three vertices. */
  function Classify(b0: bool, b1: bool, b2: bool): (v: Visibility)
    ensures v == Full <==> (b0 && b1 && b2)
    ensures v == Partial <==> ((b0 || b1 || b2) && !(b0 && b1 && b2))
    ensures v == Visibility.None <==> !(b0 || b1 || b2)
  {
    if b0 && b1 && b2 then Full
    else if b0 || b1 || b2 then Partial
    else Visibility.None
  }

  /** `bounds(v[i0]) && bounds(v[i1]) && bounds(v[i2])`, evaluated left to right: a
      vertex is looked up only when every test before it held, and `None` is the panic of
      looking one up past the vertex list. */
  function AllBound(vs: seq<Pt.Point>, t: VIndex, bounds: Pt.Point -> bool): N.Option<bool>
  {
    if t.i0 >= |vs| then N.None
    else if !bounds(vs[t.i0]) then N.Some(false)
    else if t.i1 >= |vs| then N.None
    else if !bounds(vs[t.i1]) then N.Some(false)
    else if t.i2 >= |vs| then N.None
    else N.Some(bounds(vs[t.i2]))
  }

  /** `bounds(v[i0]) || bounds(v[i1]) || bounds(v[i2])`, evaluated left to right: a
      vertex is looked up only when every test before it failed. */
  function AnyBound(vs: seq<Pt.Point>, t: VIndex, bounds: Pt.Point -> bool): N.Option<bool>
  {
    if t.i0 >= |vs| then N.None
    else if bounds(vs[t.i0]) then N.Some(true)
    else if t.i1 >= |vs| then N.None
    else if bounds(vs[t.i1]) then N.Some(true)
    else if t.i2 >= |vs| then N.None
    else N.Some(bounds(vs[t.i2]))
  }

  /** The indices the two tests reach: the first two always are, and the third is skipped
      only when the first two vertices differ under `bounds` (the `&&` chain stops at the
      unbounded one and the `||` chain at the bounded one). */
  predicate Reached(vs: seq<Pt.Point>, t: VIndex, bounds: Pt.Point -> bool)
  {
    t.i0 < |vs| && t.i1 < |vs| && (bounds(vs[t.i0]) != bounds(vs[t.i1]) || t.i2 < |vs|)
  }

  /** The tag of one triangle: the `&&` test first, the `||` test only when it fails.  It
      is defined exactly on the reached indices; with all three in range it is `Classify`
      of the three tests, and two first vertices that differ give Partial whatever the
      third index. */
  function Tag(vs: seq<Pt.Point>, t: VIndex, bounds: Pt.Point -> bool): (r: N.Option<Visibility>)
    ensures r.Some? <==> Reached(vs, t, bounds)
    ensures t.i0 < |vs| && t.i1 < |vs| && t.i2 < |vs| ==>
              r == N.Some(Classify(bounds(vs[t.i0]), bounds(vs[t.i1]), bounds(vs[t.i2])))
    ensures t.i0 < |vs| && t.i1 < |vs| && bounds(vs[t.i0]) != bounds(vs[t.i1]) ==> r == N.Some(Partial)
  {
    match AllBound(vs, t, bounds)
    case None => N.None
    case Some(all) =>
      if all then N.Some(Full)
      else
        match AnyBound(vs, t, bounds)
        case None => N.None
        case Some(any) => N.Some(if any then Partial else Visibility.None)
  }

  /** `update_visibility`: one tag per triangle, in triangle order, from `bounds`
      (`Bounding::bounds` of the given bounder); nothing else changes.  The stage panics
      where a test reaches an index past the vertex list. */
  function UpdateVisibility(pm: PipeMesh, bounds: Pt.Point -> bool): (r: N.Option<PipeMesh>)
    ensures r.Some? <==> forall k :: 0 <= k < |pm.vindex| ==> Reached(pm.vertex, pm.vindex[k], bounds)
    ensures IndicesValid(pm.vertex, pm.vindex) ==> r.Some?
    ensures r.Some? ==> (r.value.vertex == pm.vertex && r.value.vindex == pm.vindex
      && r.value.normal == pm.normal && r.value.visible.Some?
      && |r.value.visible.value| == |pm.vindex|
      && (forall k :: 0 <= k < |pm.vindex| ==>
          Tag(pm.vertex, pm.vindex[k], bounds) == N.Some(r.value.visible.value[k])))
    ensures r.Some? ==> forall k :: 0 <= k < |pm.vindex| && pm.vindex[k].i2 < |pm.vertex| ==>
          r.value.visible.value[k] == Classify(bounds(pm.vertex[pm.vindex[k].i0]),
                                               bounds(pm.vertex[pm.vindex[k].i1]),
                                               bounds(pm.vertex[pm.vindex[k].i2]))
  {
    var vs := pm.vertex;
    var ix := pm.vindex;
    if exists k :: 0 <= k < |ix| && Tag(vs, ix[k], bounds).None? then N.None
    else
      var tags := seq(|ix|, k requires 0 <= k < |ix| => Tag(vs, ix[k], bounds).value);
      N.Some(pm.(visible := N.Some(tags)))
  }

  /** The third index is never looked up when the first two vertices differ under
      `bounds`: vertices [p0, p1], one triangle (0, 1, 5), p1 bounded and p0 not, is
      tagged Partial, not a panic. */
  lemma ThirdIndexSkipped(p0: Pt.Point, p1: Pt.Point, bounds: Pt.Point -> bool)
    requires !bounds(p0) && bounds(p1)
    ensures var pm := PipeMesh([p0, p1], [VIndex(0, 1, 5)], N.None, N.None);
            UpdateVisibility(pm, bounds) == N.Some(pm.(visible := N.Some([Partial])))
  {
    var pm := PipeMesh([p0, p1], [VIndex(0, 1, 5)], N.None, N.None);
    assert Reached(pm.vertex, pm.vindex[0], bounds);
    var r := UpdateVisibility(pm, bounds).value;
    assert r.visible.value == [Partial];
  }

  /** A larger bounder never lowers a tag: if every point `small` accepts is accepted by
      `large`, each triangle's tag under `large` is at least its tag under `small`. */
  lemma VisibilityMonotone(pm: PipeMesh, small: Pt.Point -> bool, large: Pt.Point -> bool, k: nat)
    requires IndicesValid(pm.vertex, pm.vindex) && k < |pm.vindex|
    requires forall p :: small(p) ==> large(p)
    ensures Rank(UpdateVisibility(pm, small).value.visible.value[k])
         <= Rank(UpdateVisibility(pm, large).value.visible.value[k])
  {
  }

  /** With a `BBox` bounder that holds every vertex, every triangle is tagged Full. */
  lemma EnclosingBoxTagsFull(pm: PipeMesh, b: BB.BBox, k: nat)
    requires IndicesValid(pm.vertex, pm.vindex) && k < |pm.vindex|
    requires forall i :: 0 <= i < |pm.vertex| ==> BB.Bounds(b, pm.vertex[i])
    ensures UpdateVisibility(pm, p => BB.Bounds(b, p)).value.visible.value[k] == Full
  {
  }

  /** The normal and visibility stages touch separate fields, so in either order they give
      the same mesh. */
  lemma StagesCommute(pm: PipeMesh, normalTo: (Vector, Vector) -> Vector, bounds: Pt.Point -> bool)
    requires Dimension(pm.vertex, 4) && IndicesValid(pm.vertex, pm.vindex)
    ensures UpdateVisibility(UpdateNormals(pm, normalTo).value, bounds)
         == UpdateNormals(UpdateVisibility(pm, bounds).value, normalTo)
  {
  }

  // ------------------------------------------------------------------ iter.rs

  /** The four slices an `Iter` holds. */
  datatype IterState = IterState(vertex: seq<Pt.Point>, vindex: seq<VIndex>,
                                 normal: N.Option<seq<Vector>>, visible: N.Option<seq<Visibility>>)

  /** What one `next` call produces: the end of iteration, a polygon, or the panic of
      indexing the vertex slice out of range. */
  datatype Next = End | Yield(p: Polygon) | OutOfRange

  /** `Iter::new`: the mesh's slices, with the optional lists as given. */
  function Start(pm: PipeMesh): (s: IterState)
    ensures s.vertex == pm.vertex && s.vindex == pm.vindex
    ensures s.normal == pm.normal && s.visible == pm.visible
  {
    IterState(pm.vertex, pm.vindex, pm.normal, pm.visible)
  }

  /** One `next`.  An empty triangle slice ends iteration.  Otherwise the normal list
      advances first and an exhausted one ends iteration; then the tag list does the
      same (after the normal list has already advanced); then the first triangle is
      consumed and its three vertices are looked up. */
  function Step(s: IterState): (r: (Next, IterState))
    ensures r.0.Yield? ==> |s.vindex| > 0 && r.1.vindex == s.vindex[1..] && r.1.vertex == s.vertex
    ensures r.0.Yield? <==> (|s.vindex| > 0
      && (s.normal.Some? ==> |s.normal.value| > 0) && (s.visible.Some? ==> |s.visible.value| > 0)
      && s.vindex[0].i0 < |s.vertex| && s.vindex[0].i1 < |s.vertex| && s.vindex[0].i2 < |s.vertex|)
    ensures r.0.Yield? ==> (r.0.p.v0 == s.vertex[s.vindex[0].i0]
      && r.0.p.v1 == s.vertex[s.vindex[0].i1] && r.0.p.v2 == s.vertex[s.vindex[0].i2])
    ensures r.0.Yield? ==> (r.0.p.normal.Some? <==> s.normal.Some?)
    ensures r.0.Yield? && s.normal.Some? ==> (r.0.p.normal.value == s.normal.value[0]
      && r.1.normal == N.Some(s.normal.value[1..]))
    ensures r.0.Yield? ==> (r.0.p.visible.Some? <==> s.visible.Some?)
    ensures r.0.Yield? && s.visible.Some? ==> (r.0.p.visible.value == s.visible.value[0]
      && r.1.visible == N.Some(s.visible.value[1..]))
    ensures r.0.Yield? && s.normal.None? ==> r.1.normal.None?
    ensures r.0.Yield? && s.visible.None? ==> r.1.visible.None?
    ensures |s.vindex| == 0 ==> r == (End, s)
  {
    if |s.vindex| == 0 then (End, s)
    else if s.normal.Some? && |s.normal.value| == 0 then (End, s)
    else
      var n: N.Option<Vector> := if s.normal.Some? then N.Some(s.normal.value[0]) else N.None;
      var s1 := if s.normal.Some? then s.(normal := N.Some(s.normal.value[1..])) else s;
      if s.visible.Some? && |s.visible.value| == 0 then (End, s1)
      else
        var v: N.Option<Visibility> := if s.visible.Some? then N.Some(s.visible.value[0]) else N.None;
        var s2 := if s.visible.Some? then s1.(visible := N.Some(s.visible.value[1..])) else s1;
        var ix := s.vindex[0];
        var s3 := s2.(vindex := s.vindex[1..]);
        if ix.i0 < |s.vertex| && ix.i1 < |s.vertex| && ix.i2 < |s.vertex| then
          (Yield(Polygon(s.vertex[ix.i0], s.vertex[ix.i1], s.vertex[ix.i2], n, v)), s3)
        else
          (OutOfRange, s3)
  }

  /** The polygons a `for` loop over the iterator receives before `next` first fails
      to yield one. */
  function Items(s: IterState): seq<Polygon>
    decreases |s.vindex|
  {
    var r := Step(s);
    if r.0.Yield? then [r.0.p] + Items(r.1) else []
  }

  /** The polygon the k-th triangle gives when both optional lists are positional. */
  function Expected(s: IterState, k: nat): Polygon
    requires k < |s.vindex| && IndicesValid(s.vertex, s.vindex)
    requires s.normal.Some? ==> k < |s.normal.value|
    requires s.visible.Some? ==> k < |s.visible.value|
  {
    var ix := s.vindex[k];
    Polygon(s.vertex[ix.i0], s.vertex[ix.i1], s.vertex[ix.i2],
            if s.normal.Some? then N.Some(s.normal.value[k]) else N.None,
            if s.visible.Some? then N.Some(s.visible.value[k]) else N.None)
  }

  predicate ListsCover(s: IterState)
  {
    (s.normal.Some? ==> |s.normal.value| >= |s.vindex|)
    && (s.visible.Some? ==> |s.visible.value| >= |s.vindex|)
  }

  /** With valid indices and the optional lists absent or at least as long as the
      triangle list, every triangle is yielded once, in order, paired with the normal and
      tag at its own position. */
  lemma {:induction false} ItemsAll(s: IterState)
    requires IndicesValid(s.vertex, s.vindex) && ListsCover(s)
    ensures |Items(s)| == |s.vindex|
    ensures forall k :: 0 <= k < |s.vindex| ==> Items(s)[k] == Expected(s, k)
    decreases |s.vindex|
  {
    if |s.vindex| > 0 {
      var r := Step(s);
      var t := r.1;
      assert IndicesValid(t.vertex, t.vindex) by {
        forall k | 0 <= k < |t.vindex| ensures t.vindex[k] == s.vindex[k + 1] { }
      }
      ItemsAll(t);
      forall k | 0 <= k < |s.vindex| ensures Items(s)[k] == Expected(s, k) {
        if k > 0 {
          assert Items(s)[k] == Items(t)[k - 1];
          assert Expected(t, k - 1) == Expected(s, k);
        }
      }
    }
  }

  /** A normal list shorter than the triangle list stops the iteration early: only as many
      polygons as there are normals are yielded. */
  lemma {:induction false} ItemsStopAtNormals(s: IterState)
    requires IndicesValid(s.vertex, s.vindex)
    requires s.normal.Some? && |s.normal.value| < |s.vindex|
    requires s.visible.Some? ==> |s.visible.value| >= |s.vindex|
    ensures |Items(s)| == |s.normal.value|
    decreases |s.vindex|
  {
    if |s.normal.value| > 0 {
      var t := Step(s).1;
      assert IndicesValid(t.vertex, t.vindex) by {
        forall k | 0 <= k < |t.vindex| ensures t.vindex[k] == s.vindex[k + 1] { }
      }
      ItemsStopAtNormals(t);
    }
  }

  /** `Iter`: the iterator whose `next` advances its slices by `split_first`. */
  class Iter {
    var vertex: seq<Pt.Point>
    var vindex: seq<VIndex>
    var normal: N.Option<seq<Vector>>
    var visible: N.Option<seq<Visibility>>

    function State(): IterState
      reads this
    {
      IterState(vertex, vindex, normal, visible)
    }

    /** `Iter::new`, also `PipeMesh::iter`. */
    constructor (pm: PipeMesh)
      ensures State() == Start(pm)
    {
      vertex := pm.vertex;
      vindex := pm.vindex;
      normal := pm.normal;
      visible := pm.visible;
    }

    /** `Iterator::next`. */
    method Next() returns (r: Next)
      modifies this
      ensures (r, State()) == Step(old(State()))
    {
      if |vindex| == 0 {
        return End;
      }
      var n: N.Option<Vector> := N.None;
      if normal.Some? {
        if |normal.value| == 0 {
          return End;
        }
        n := N.Some(normal.value[0]);
        normal := N.Some(normal.value[1..]);
      }
      var v: N.Option<Visibility> := N.None;
      if visible.Some? {
        if |visible.value| == 0 {
          return End;
        }
        v := N.Some(visible.value[0]);
        visible := N.Some(visible.value[1..]);
      }
      var ix := vindex[0];
      vindex := vindex[1..];
      if ix.i0 < |vertex| && ix.i1 < |vertex| && ix.i2 < |vertex| {
        r := Yield(Polygon(vertex[ix.i0], vertex[ix.i1], vertex[ix.i2], n, v));
      } else {
        r := OutOfRange;
      }
    }
  }
}
