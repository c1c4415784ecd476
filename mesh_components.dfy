// src/mesh/static_mesh.rs and src/mesh/dynamic_mesh.rs: a mesh stored as a
// vertex list and index triangles, the transformable copy made from it, and that
// copy's iterator, which pairs each triangle with the normal at the same
// position.

module MeshComponents {
  import opened Numeric
  import P = Primitives
  import MV = MeshVertex
  import M = Mesh

  /** `[usize; 3]`: the three vertex indices of a triangle. */
  type Triangle = (nat, nat, nat)

  /** The triangles `StaticMesh::load_cube` pushes: those of `Mesh::load_cube` without
      their normal indices. */
  const CubeTriangles: seq<Triangle> :=
    [(2, 6, 7), (2, 7, 3), (3, 7, 5), (3, 5, 1), (1, 5, 4), (1, 4, 0),
     (0, 4, 6), (0, 6, 2), (6, 4, 5), (6, 5, 7), (0, 2, 3), (0, 3, 1)]

  /** The twelve triangles have every index below 8 and are, in order, the vertex indices
      of the twelve polygons of src/mesh/mesh.rs. */
  lemma CubeTrianglesShape()
    ensures |CubeTriangles| == 12
    ensures forall k :: 0 <= k < 12 ==>
              CubeTriangles[k].0 < 8 && CubeTriangles[k].1 < 8 && CubeTriangles[k].2 < 8
    ensures forall k :: 0 <= k < 12 ==>
              CubeTriangles[k] == (M.CubePolygons[k].p1, M.CubePolygons[k].p2, M.CubePolygons[k].p3)
  {
  }

  predicate TriangleIn(t: Triangle, nv: nat)
  {
    t.0 < nv && t.1 < nv && t.2 < nv
  }

  /** `StaticMesh`: vertices and index triangles. */
  class StaticMesh {
    var vertexComponents: seq<P.Vertex>
    var polygonComponents: seq<Triangle>

    /** `StaticMesh::default`: both lists empty. */
    constructor ()
      ensures vertexComponents == [] && polygonComponents == []
    {
      vertexComponents := [];
      polygonComponents := [];
    }

    /** `load_cube`: the eight corners and the twelve triangles are appended; the new
        triangles' indices are not offset by the vertices already present. */
    method LoadCube(edge: real)
      modifies this
      ensures vertexComponents == old(vertexComponents) + M.CubeVertices(edge)
      ensures polygonComponents == old(polygonComponents) + CubeTriangles
    {
      vertexComponents := vertexComponents + M.CubeVertices(edge);
      polygonComponents := polygonComponents + CubeTriangles;
    }
  }

  /** Because the indices are not offset, loading a cube into a mesh that already holds
      eight vertices or more makes the new triangles name old vertices only, none of the
      new corners; only into an empty mesh do they address the cube's own corners.  Every
      new triangle is in range either way. */
  lemma AppendedCubeMisindexed(before: seq<P.Vertex>, edge: real)
    ensures forall k :: 0 <= k < 12 ==> TriangleIn(CubeTriangles[k], |before| + 8)
    ensures |before| >= 8 ==> forall k :: 0 <= k < 12 ==> TriangleIn(CubeTriangles[k], |before|)
    ensures |before| == 0 ==> before + M.CubeVertices(edge) == M.CubeVertices(edge)
  {
    CubeTrianglesShape();
    M.CubeCorners(edge);
    if |before| == 0 {
      assert before == [];
    }
  }

  /** `DynamicMesh`: the copied lists, the normals and the visibility index. */
  class DynamicMesh {
    var vertexComponents: seq<P.Vertex>
    var polygonComponents: seq<Triangle>
    var normalComponents: seq<MV.Vector3>
    var visibilityIndex: seq<nat>

    /** `DynamicMesh::default`: all four lists empty. */
    constructor ()
      ensures vertexComponents == [] && polygonComponents == [] && normalComponents == [] && visibilityIndex == []
    {
      vertexComponents := [];
      polygonComponents := [];
      normalComponents := [];
      visibilityIndex := [];
    }

    /** `DynamicMesh::new`: the vertices and triangles are copied, and there are no normals
        and no visible polygons yet (the normal list's capacity is not modelled). */
    constructor New(mesh: StaticMesh)
      ensures vertexComponents == mesh.vertexComponents && polygonComponents == mesh.polygonComponents
      ensures normalComponents == [] && visibilityIndex == []
    {
      vertexComponents := mesh.vertexComponents;
      polygonComponents := mesh.polygonComponents;
      normalComponents := [];
      visibilityIndex := [];
    }
  }

  /** A triangle with its three vertices looked up, and the normal beside it. */
  datatype Polygon = Polygon(verticies: seq<P.Vertex>, normal: MV.Vector3)

  /** Everything the iterator yields before it stops, in order; `None` where a vertex
      index is out of range (a panic).  Iteration stops when either the triangles or the
      normals run out. */
  function Yielded(vs: seq<P.Vertex>, ts: seq<Triangle>, ns: seq<MV.Vector3>): Option<seq<Polygon>>
    decreases |ts|
  {
    if |ts| == 0 || |ns| == 0 then Some([])
    else if !TriangleIn(ts[0], |vs|) then None
    else
      var rest := Yielded(vs, ts[1..], ns[1..]);
      if rest.None? then None
      else Some([Polygon([vs[ts[0].0], vs[ts[0].1], vs[ts[0].2]], ns[0])] + rest.value)
  }

  /** With every index in range, the iterator yields one polygon per triangle up to the
      shorter of the two lists, and the k-th pairs the vertices of triangle k with normal k. */
  lemma {:induction false} YieldedPairs(vs: seq<P.Vertex>, ts: seq<Triangle>, ns: seq<MV.Vector3>)
    requires forall k :: 0 <= k < |ts| ==> ts[k].0 < |vs| && ts[k].1 < |vs| && ts[k].2 < |vs|
    ensures Yielded(vs, ts, ns).Some?
    ensures var r := Yielded(vs, ts, ns).value;
            |r| == Min(|ts|, |ns|)
            && forall k :: 0 <= k < |r| ==>
                 r[k] == Polygon([vs[ts[k].0], vs[ts[k].1], vs[ts[k].2]], ns[k])
    decreases |ts|
  {
    if |ts| > 0 && |ns| > 0 {
      assert forall k :: 0 <= k < |ts| - 1 ==> ts[1..][k] == ts[k + 1];
      YieldedPairs(vs, ts[1..], ns[1..]);
    }
  }

  /** A missing vertex fails the iteration only where it is reached before either list
      runs out. */
  lemma {:induction false} YieldedFails(vs: seq<P.Vertex>, ts: seq<Triangle>, ns: seq<MV.Vector3>)
    ensures Yielded(vs, ts, ns).None? <==>
              exists k :: 0 <= k < Min(|ts|, |ns|) && !TriangleIn(ts[k], |vs|)
    decreases |ts|
  {
    if |ts| > 0 && |ns| > 0 {
      YieldedFails(vs, ts[1..], ns[1..]);
      if !TriangleIn(ts[0], |vs|) {
        assert 0 < Min(|ts|, |ns|);
      } else {
        if exists k :: 0 <= k < Min(|ts|, |ns|) && !TriangleIn(ts[k], |vs|) {
          var k :| 0 <= k < Min(|ts|, |ns|) && !TriangleIn(ts[k], |vs|);
          assert k > 0 && ts[1..][k - 1] == ts[k];
        }
        if exists k :: 0 <= k < Min(|ts| - 1, |ns| - 1) && !TriangleIn(ts[1..][k], |vs|) {
          var k :| 0 <= k < Min(|ts| - 1, |ns| - 1) && !TriangleIn(ts[1..][k], |vs|);
          assert ts[k + 1] == ts[1..][k];
        }
      }
    }
  }

  /** The dynamic mesh's `PolyIterator`: the vertices, and the triangles and normals not
      yet consumed. */
  class PolyIterator {
    var vertexComponents: seq<P.Vertex>
    var polygonComponents: seq<Triangle>
    var normalComponents: seq<MV.Vector3>

    constructor (vs: seq<P.Vertex>, ts: seq<Triangle>, ns: seq<MV.Vector3>)
      ensures vertexComponents == vs && polygonComponents == ts && normalComponents == ns
    {
      vertexComponents := vs;
      polygonComponents := ts;
      normalComponents := ns;
    }

    /** `next`: `None` with nothing consumed once the triangles run out; otherwise the first
        triangle is split off, and then `None` is returned if there is no normal left, or
        else the first normal is split off as well and paired with it.  ok is false where a
        vertex index is out of range (a panic). */
    method Next() returns (item: Option<Polygon>, ok: bool)
      modifies this
      ensures vertexComponents == old(vertexComponents)
      ensures old(polygonComponents) == [] ==>
                item == None && ok && polygonComponents == [] && normalComponents == old(normalComponents)
      ensures old(polygonComponents) != [] && old(normalComponents) == [] ==>
                item == None && ok && polygonComponents == old(polygonComponents)[1..] && normalComponents == []
      ensures old(polygonComponents) != [] && old(normalComponents) != [] ==>
                polygonComponents == old(polygonComponents)[1..]
                && normalComponents == old(normalComponents)[1..]
                && ok == TriangleIn(old(polygonComponents)[0], |vertexComponents|)
                && (ok ==> var t := old(polygonComponents)[0];
                           item == Some(Polygon([vertexComponents[t.0], vertexComponents[t.1], vertexComponents[t.2]],
                                                old(normalComponents)[0])))
    {
      if |polygonComponents| == 0 {
        return None, true;
      }
      var t := polygonComponents[0];
      polygonComponents := polygonComponents[1..];
      if |normalComponents| == 0 {
        return None, true;
      }
      var n := normalComponents[0];
      normalComponents := normalComponents[1..];
      if !(t.0 < |vertexComponents| && t.1 < |vertexComponents| && t.2 < |vertexComponents|) {
        return None, false;
      }
      item := Some(Polygon([vertexComponents[t.0], vertexComponents[t.1], vertexComponents[t.2]], n));
      ok := true;
    }
  }

  /** A `Next` that yields a polygon yields the head of `Yielded`, and the rest of
      `Yielded` is what the iterator still has to give. */
  lemma YieldedStep(vs: seq<P.Vertex>, ts: seq<Triangle>, ns: seq<MV.Vector3>)
    requires |ts| > 0 && |ns| > 0 && Yielded(vs, ts, ns).Some?
    ensures Yielded(vs, ts[1..], ns[1..]).Some?
    ensures Yielded(vs, ts, ns).value ==
              [Polygon([vs[ts[0].0], vs[ts[0].1], vs[ts[0].2]], ns[0])] + Yielded(vs, ts[1..], ns[1..]).value
  {
  }
}
