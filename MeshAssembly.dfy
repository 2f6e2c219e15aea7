/**
 * The list-building part of `DecalMesh.CreateMesh` (triangles to a vertex
 * list and an index list, optionally welding equal vertices) and its
 * inverse `DecalMesh.CreatePolygons` (index list back to triangles).
 */
module MeshAssembly {
  import opened Geometry
  import opened Polygons

  /** The corners of all triangles, three per triangle, in order */
  function Corners(ps: seq<Polygon>): (cs: seq<Vec3>)
    ensures |cs| == 3 * |ps|
  {
    if ps == [] then [] else Corners(ps[..|ps| - 1]) + ps[|ps| - 1].Vertices()
  }

  /** Corner v of triangle i sits at position 3 * i + v */
  lemma {:induction false} CornerAt(ps: seq<Polygon>, i: int, v: int)
    requires 0 <= i < |ps| && 0 <= v < 3
    ensures Corners(ps)[3 * i + v] == ps[i].Vertex(v)
    decreases |ps|
  {
    var init := ps[..|ps| - 1];
    if i < |ps| - 1 {
      CornerAt(init, i, v);
      assert init[i] == ps[i];
    }
  }

  predicate NoDuplicates(vs: seq<Vec3>)
  {
    forall i, j :: 0 <= i < j < |vs| ==> vs[i] != vs[j]
  }

  /** `List.IndexOf`: the first position holding x */
  function IndexOf(vs: seq<Vec3>, x: Vec3): (k: int)
    requires x in vs
    ensures 0 <= k < |vs| && vs[k] == x
    ensures forall j :: 0 <= j < k ==> vs[j] != x
  {
    if vs[0] == x then 0 else 1 + IndexOf(vs[1..], x)
  }

  /**
   * Whether the vertex and index lists encode the corner stream: one index
   * per corner, naming a vertex at that corner's position. With `merge` the
   * vertex list holds each position of the stream exactly once; without it
   * the vertex list is the stream itself and corner k uses vertex k.
   */
  ghost predicate Assembled(vertices: seq<Vec3>, triangles: seq<int>, stream: seq<Vec3>, merge: bool)
  {
    && |triangles| == |stream|
    && (forall k :: 0 <= k < |triangles| ==> 0 <= triangles[k] < |vertices| && vertices[triangles[k]] == stream[k])
    && (merge ==> NoDuplicates(vertices) && forall x :: x in vertices <==> x in stream)
    && (!merge ==> vertices == stream && forall k :: 0 <= k < |triangles| ==> triangles[k] == k)
  }

  /**
   * The body of the inner loop of `CreateMesh`: one more corner. With
   * `merge`, a corner already listed reuses the first index holding it.
   */
  method AddCorner(vertices: seq<Vec3>, triangles: seq<int>, corner: Vec3, merge: bool, ghost stream: seq<Vec3>)
    returns (vertices': seq<Vec3>, triangles': seq<int>)
    requires Assembled(vertices, triangles, stream, merge)
    ensures Assembled(vertices', triangles', stream + [corner], merge)
  {
    if merge {
      if corner in vertices {
        vertices', triangles' := vertices, triangles + [IndexOf(vertices, corner)];
      } else {
        vertices' := vertices + [corner];
        triangles' := triangles + [|vertices'| - 1];
      }
    } else {
      vertices' := vertices + [corner];
      triangles' := triangles + [|vertices'| - 1];
    }
  }

  /**
   * The two lists `CreateMesh` builds before handing them to Unity. With
   * `merge`, a corner equal to one already listed reuses its index, so the
   * vertex list holds each position once; without it every corner gets a
   * vertex of its own. Either way corner k of the triangle stream is drawn
   * from `vertices[triangles[k]]`.
   */
  method CreateMesh(polygons: seq<Polygon>, merge: bool) returns (vertices: seq<Vec3>, triangles: seq<int>)
    ensures |triangles| == 3 * |polygons|
    ensures forall k :: 0 <= k < |triangles| ==>
              0 <= triangles[k] < |vertices| && vertices[triangles[k]] == Corners(polygons)[k]
    ensures merge ==> NoDuplicates(vertices)
    ensures merge ==> forall x :: x in vertices <==> x in Corners(polygons)
    ensures !merge ==> vertices == Corners(polygons)
    ensures !merge ==> forall k :: 0 <= k < |triangles| ==> triangles[k] == k
  {
    ghost var cs := Corners(polygons);
    vertices, triangles := [], [];
    var i := 0;
    while i < |polygons|
      invariant 0 <= i <= |polygons|
      invariant Assembled(vertices, triangles, cs[..3 * i], merge)
    {
      var v := 0;
      while v < 3
        invariant 0 <= v <= 3
        invariant Assembled(vertices, triangles, cs[..3 * i + v], merge)
      {
        CornerAt(polygons, i, v);
        assert cs[..3 * i + v + 1] == cs[..3 * i + v] + [polygons[i].Vertex(v)];
        vertices, triangles := AddCorner(vertices, triangles, polygons[i].Vertex(v), merge, cs[..3 * i + v]);
        v := v + 1;
      }
      i := i + 1;
    }
    assert cs[..3 * i] == cs;
  }

  /** Whether every index of the first `|triangles| / 3` triples names a vertex */
  predicate ValidIndices(vertices: seq<Vec3>, triangles: seq<int>)
  {
    forall k :: 0 <= k < |triangles| / 3 * 3 ==> 0 <= triangles[k] < |vertices|
  }

  /**
   * `CreatePolygons`: one triangle per complete index triple (a trailing
   * incomplete triple is ignored), its corners the vertices the triple names.
   */
  function CreatePolygons(vertices: seq<Vec3>, triangles: seq<int>): (ps: seq<Polygon>)
    requires ValidIndices(vertices, triangles)
    ensures |ps| == |triangles| / 3
  {
    seq(|triangles| / 3, i requires 0 <= i < |triangles| / 3 =>
      Polygon(vertices[triangles[i * 3]], vertices[triangles[i * 3 + 1]], vertices[triangles[i * 3 + 2]]))
  }

  /**
   * Reading back the lists `CreateMesh` builds gives the triangles it was
   * given, welded or not.
   */
  lemma {:induction false} CreatePolygonsInvertsCreateMesh(polygons: seq<Polygon>, vertices: seq<Vec3>,
                                                           triangles: seq<int>)
    requires |triangles| == 3 * |polygons|
    requires forall k :: 0 <= k < |triangles| ==>
               0 <= triangles[k] < |vertices| && vertices[triangles[k]] == Corners(polygons)[k]
    ensures ValidIndices(vertices, triangles)
    ensures CreatePolygons(vertices, triangles) == polygons
  {
    assert |triangles| / 3 == |polygons|;
    var ps := CreatePolygons(vertices, triangles);
    forall i | 0 <= i < |polygons|
      ensures ps[i] == polygons[i]
    {
      CornerAt(polygons, i, 0);
      CornerAt(polygons, i, 1);
      CornerAt(polygons, i, 2);
    }
  }
}
