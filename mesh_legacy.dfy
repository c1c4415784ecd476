// The earlier mesh of src/mesh/mesh_transform.rs, src/mesh/mesh_translate.rs
// and src/mesh/mesh_iterate.rs.  Its vertices and normals are the four-component
// `prim::Vertex` of src/primitives.rs, it keeps its own orientation and position
// instead of a physical state, it adds the position to all four components, and
// its visibility test is the strict `in_ndc_space`.  The struct itself is not
// declared in any of these files; its fields are the ones their methods use.

module MeshLegacy {
  import opened Numeric
  import P = Primitives
  import MV = MeshVertex
  import Ph = Physics
  import M = Mesh

  /** Each vertex rotated by the matrix and then offset by the position, w included. */
  function Moved(vs: seq<P.Vertex>, rotation: P.TransformMatrix, position: P.Vertex): (r: seq<P.Vertex>)
    requires P.WellFormed(rotation)
  {
    seq(|vs|, i requires 0 <= i < |vs| => P.Add(P.Transform(vs[i], rotation), position))
  }

  /** Unlike the translation of src/mesh/mesh.rs, the offset reaches w: it grows by the
      position's w; with w = 0 in the position both agree. */
  lemma MovedAgainstTranslated(vs: seq<P.Vertex>, rotation: P.TransformMatrix, position: P.Vertex)
    requires P.WellFormed(rotation)
    ensures forall i :: 0 <= i < |vs| ==>
              Moved(vs, rotation, position)[i].w == P.Transform(vs[i], rotation).w + position.w
    ensures position.w == 0.0 ==>
              Moved(vs, rotation, position) == M.Transformed(vs, rotation, MV.Vector3(position.x, position.y, position.z))
  {
    var d := MV.Vector3(position.x, position.y, position.z);
    if position.w == 0.0 {
      forall i | 0 <= i < |vs| ensures Moved(vs, rotation, position)[i] == M.Transformed(vs, rotation, d)[i] {
        P.CoordsRoundTrip(Moved(vs, rotation, position)[i]);
        P.CoordsRoundTrip(M.Transformed(vs, rotation, d)[i]);
      }
    }
  }

  /** `apply_transformations`'s loop over the vertices. */
  method MoveAll(vs: seq<P.Vertex>, rotation: P.TransformMatrix, position: P.Vertex) returns (r: seq<P.Vertex>)
    requires P.WellFormed(rotation)
    ensures r == Moved(vs, rotation, position)
  {
    r := vs;
    for i := 0 to |vs|
      invariant |r| == |vs|
      invariant forall j :: 0 <= j < i ==> r[j] == P.Add(P.Transform(vs[j], rotation), position)
      invariant forall j :: i <= j < |vs| ==> r[j] == vs[j]
    {
      var v := P.Transform(r[i], rotation);
      v := P.Add(v, position);
      r := r[i := v];
    }
  }

  /** The strict test keeps no polygon that the closed cube test of src/mesh/mesh.rs would
      drop, and a polygon whose only vertex in view sits on a face of the cube is kept by
      the closed test alone. */
  lemma StrictKeepsFewer(vs: seq<P.Vertex>, ps: seq<M.IndexPoly>)
    requires M.AllIndexed(ps, |vs|)
    ensures forall p :: p in M.Kept(vs, ps, P.InNdcSpace) ==> p in M.Kept(vs, ps, MV.InNdcBox)
    ensures var face := [P.Vertex(1.0, 0.0, 0.0, 1.0)];
            var tri := [P.Polygon(0, 0, 0, 0)];
            M.Kept(face, tri, P.InNdcSpace) == [] && M.Kept(face, tri, MV.InNdcBox) == tri
  {
    forall v | P.InNdcSpace(v) ensures MV.InNdcBox(v) {
      MV.NdcBoxAgainstStrict(v);
    }
    M.KeptWeaker(vs, ps, P.InNdcSpace, MV.InNdcBox);
    var face := [P.Vertex(1.0, 0.0, 0.0, 1.0)];
    var tri: seq<M.IndexPoly> := [P.Polygon(0, 0, 0, 0)];
    MV.NdcBoxAgainstStrict(face[0]);
    assert tri[..0] == [];
  }

  class Mesh {
    var verticies: seq<P.Vertex>
    var normals: seq<P.Vertex>
    var polygons: seq<M.IndexPoly>
    var visiblePolygons: seq<M.IndexPoly>
    var orientation: Ph.Triple
    var position: P.Vertex

    /** `self.clone()`. */
    constructor Clone(m: Mesh)
      ensures verticies == m.verticies && normals == m.normals && polygons == m.polygons
      ensures visiblePolygons == m.visiblePolygons && orientation == m.orientation && position == m.position
    {
      verticies := m.verticies;
      normals := m.normals;
      polygons := m.polygons;
      visiblePolygons := m.visiblePolygons;
      orientation := m.orientation;
      position := m.position;
    }

    /** `apply_transformations`, with the rotation matrix that the source builds from the
        orientation in radians by sines and cosines as a parameter. */
    method ApplyTransformations(rotation: P.TransformMatrix)
      requires P.WellFormed(rotation)
      modifies this
      ensures verticies == Moved(old(verticies), rotation, position)
      ensures normals == old(normals) && polygons == old(polygons) && visiblePolygons == old(visiblePolygons)
      ensures orientation == old(orientation) && position == old(position)
    {
      verticies := MoveAll(verticies, rotation, position);
    }

    /** `find_normals`: the normal of each polygon, from the two edge vectors out of its
        first vertex, goes into the slot it names; ok is false where an index is out of
        range (a panic). */
    method FindNormals(normalOf: (P.Vertex, P.Vertex, P.Vertex) -> P.Vertex) returns (ok: bool)
      modifies this
      ensures ok == M.Normalled(old(verticies), old(normals), polygons, normalOf).Some?
      ensures ok ==> normals == M.Normalled(old(verticies), old(normals), polygons, normalOf).value
      ensures verticies == old(verticies) && polygons == old(polygons) && visiblePolygons == old(visiblePolygons)
      ensures orientation == old(orientation) && position == old(position)
    {
      var r;
      ok, r := M.ComputeNormals(verticies, normals, polygons, normalOf);
      if ok {
        normals := r;
      }
    }

    /** `project_to_ndc`; ok is false where some vertex gets w = 0. */
    method ProjectToNdc(projection: P.TransformMatrix) returns (ok: bool)
      requires P.WellFormed(projection)
      modifies this
      ensures ok == M.Projectable(old(verticies), projection)
      ensures ok ==> verticies == M.NdcAll(old(verticies), projection)
      ensures normals == old(normals) && polygons == old(polygons) && visiblePolygons == old(visiblePolygons)
      ensures orientation == old(orientation) && position == old(position)
    {
      var r;
      ok, r := M.ProjectAll(verticies, projection);
      if ok {
        verticies := r;
      }
    }

    /** `polygons_in_view`: the strict NDC test, appending to the visible list. */
    method PolygonsInView() returns (ok: bool)
      modifies this
      ensures ok == M.AllIndexed(polygons, |verticies|)
      ensures ok ==> visiblePolygons == old(visiblePolygons) + M.Kept(verticies, polygons, P.InNdcSpace)
      ensures verticies == old(verticies) && normals == old(normals) && polygons == old(polygons)
      ensures orientation == old(orientation) && position == old(position)
    {
      var r;
      ok, r := M.FilterVisible(verticies, polygons, P.InNdcSpace, visiblePolygons);
      if ok {
        visiblePolygons := r;
      }
    }

    /** `project_to_screen`. */
    method ProjectToScreen(width: real, height: real)
      modifies this
      ensures verticies == M.ScreenAll(old(verticies), width, height)
      ensures normals == old(normals) && polygons == old(polygons) && visiblePolygons == old(visiblePolygons)
      ensures orientation == old(orientation) && position == old(position)
    {
      verticies := M.ScreenProject(verticies, width, height);
    }

    /** `run_pipeline`: every step runs on a clone, so the receiver is left as it was. */
    method RunPipeline(projection: P.TransformMatrix, width: real, height: real,
                       rotation: P.TransformMatrix, normalOf: (P.Vertex, P.Vertex, P.Vertex) -> P.Vertex)
      returns (m: Mesh, ok: bool)
      requires P.WellFormed(projection) && P.WellFormed(rotation)
      ensures fresh(m)
      ensures verticies == old(verticies) && normals == old(normals) && polygons == old(polygons)
      ensures visiblePolygons == old(visiblePolygons) && orientation == old(orientation) && position == old(position)
      ensures var moved := Moved(verticies, rotation, position);
              var r := M.Pipelined(verticies, normals, polygons, visiblePolygons, moved, projection, width, height,
                                   normalOf, P.InNdcSpace);
              ok == r.Some? && (ok ==> m.verticies == r.value.0 && m.normals == r.value.1
                                       && m.visiblePolygons == r.value.2 && m.polygons == polygons)
    {
      m := new Mesh.Clone(this);
      m.ApplyTransformations(rotation);
      ok := m.FindNormals(normalOf);
      if !ok {
        return;
      }
      ok := m.ProjectToNdc(projection);
      if !ok {
        return;
      }
      ok := m.PolygonsInView();
      if !ok {
        return;
      }
      m.ProjectToScreen(width, height);
    }

    /** `abs_orientation`: each angle clamped into [-180, 180]. */
    method AbsOrientation(x: real, y: real, z: real)
      modifies this
      ensures orientation == Ph.Triple(Ph.ClampAngle(x), Ph.ClampAngle(y), Ph.ClampAngle(z))
      ensures verticies == old(verticies) && normals == old(normals) && polygons == old(polygons)
      ensures visiblePolygons == old(visiblePolygons) && position == old(position)
    {
      orientation := orientation.(x := Ph.ClampAngle(x));
      orientation := orientation.(y := Ph.ClampAngle(y));
      orientation := orientation.(z := Ph.ClampAngle(z));
    }

    /** `rel_orientation`: the deltas are added, x is wrapped once and y twice into
        [180, 540); z is never wrapped. */
    method RelOrientation(x: real, y: real, z: real)
      modifies this
      ensures orientation == Ph.Triple(Ph.WrapAngle(old(orientation.x) + x),
                                       Ph.WrapAngle(old(orientation.y) + y),
                                       old(orientation.z) + z)
      ensures verticies == old(verticies) && normals == old(normals) && polygons == old(polygons)
      ensures visiblePolygons == old(visiblePolygons) && position == old(position)
    {
      orientation := Ph.Triple(orientation.x + x, orientation.y + y, orientation.z + z);
      var ax := Ph.Wrap(orientation.x);
      orientation := orientation.(x := ax);
      var ay := Ph.Wrap(orientation.y);
      orientation := orientation.(y := ay);
      ay := Ph.Wrap(orientation.y);
      orientation := orientation.(y := ay);
      Ph.WrapAngleIdempotent(old(orientation.y) + y);
    }

    /** `abs_position`: x, y and z are set, w is kept. */
    method AbsPosition(x: real, y: real, z: real)
      modifies this
      ensures position == P.Vertex(x, y, z, old(position.w))
      ensures verticies == old(verticies) && normals == old(normals) && polygons == old(polygons)
      ensures visiblePolygons == old(visiblePolygons) && orientation == old(orientation)
    {
      position := position.(x := x);
      position := position.(y := y);
      position := position.(z := z);
    }

    /** `rel_position`: the deltas are added to x, y and z, w is kept. */
    method RelPosition(x: real, y: real, z: real)
      modifies this
      ensures position == P.Vertex(old(position.x) + x, old(position.y) + y, old(position.z) + z, old(position.w))
      ensures verticies == old(verticies) && normals == old(normals) && polygons == old(polygons)
      ensures visiblePolygons == old(visiblePolygons) && orientation == old(orientation)
    {
      position := position.(x := position.x + x);
      position := position.(y := position.y + y);
      position := position.(z := position.z + z);
    }

    /** `iter_all_polygons`. */
    method IterAllPolygons() returns (it: M.PolyIterator<P.Vertex>)
      ensures fresh(it) && it.vertexList == verticies && it.normalList == normals && it.polygonList == polygons
    {
      it := new M.PolyIterator(verticies, normals, polygons);
    }

    /** `iter_visible_polygons`. */
    method IterVisiblePolygons() returns (it: M.PolyIterator<P.Vertex>)
      ensures fresh(it) && it.vertexList == verticies && it.normalList == normals
      ensures it.polygonList == visiblePolygons
    {
      it := new M.PolyIterator(verticies, normals, visiblePolygons);
    }
  }
}
