/**
 * `DecalMesh.CreateFromTerrain`: tessellate the part of a terrain under the
 * decal's bounds, lift every corner onto the terrain's surface, then clip
 * the triangles against the decal volume.
 */
module TerrainMesh {
  import opened Geometry
  import opened Polygons
  import opened Clipping
  import opened TerrainGrid

  /**
   * A corner moved onto the terrain surface: its height becomes the
   * terrain's base height plus the height the terrain reports at its x and
   * z. `sampleHeight` is `Terrain.SampleHeight`, which reads the heightmap
   * at the point's horizontal position only.
   */
  function Grounded(v: Vec3, terrainY: real, sampleHeight: (real, real) -> real): Vec3
  {
    Vec3(v.x, terrainY + sampleHeight(v.x, v.z), v.z)
  }

  function GroundedPolygon(p: Polygon, terrainY: real, sampleHeight: (real, real) -> real): Polygon
  {
    Polygon(Grounded(p.v0, terrainY, sampleHeight), Grounded(p.v1, terrainY, sampleHeight),
            Grounded(p.v2, terrainY, sampleHeight))
  }

  function GroundAll(ps: seq<Polygon>, terrainY: real, sampleHeight: (real, real) -> real): (r: seq<Polygon>)
    ensures |r| == |ps|
  {
    seq(|ps|, i requires 0 <= i < |ps| => GroundedPolygon(ps[i], terrainY, sampleHeight))
  }

  /** The height loop of `CreateFromTerrain`: every corner of every triangle placed on the terrain, in place */
  method PlaceOnTerrain(pols: array<Polygon>, terrainY: real, sampleHeight: (real, real) -> real)
    modifies pols
    ensures forall p :: 0 <= p < pols.Length ==> pols[p] == GroundedPolygon(old(pols[p]), terrainY, sampleHeight)
  {
    var p := 0;
    while p < pols.Length
      invariant 0 <= p <= pols.Length
      invariant forall q :: 0 <= q < p ==> pols[q] == GroundedPolygon(old(pols[q]), terrainY, sampleHeight)
      invariant forall q :: p <= q < pols.Length ==> pols[q] == old(pols[q])
    {
      ghost var before := old(pols[p]);
      var v := 0;
      while v < 3
        invariant 0 <= v <= 3
        invariant forall k :: 0 <= k < 3 ==>
                    pols[p].Vertex(k) == if k < v then Grounded(before.Vertex(k), terrainY, sampleHeight) else before.Vertex(k)
        invariant forall q :: 0 <= q < p ==> pols[q] == GroundedPolygon(old(pols[q]), terrainY, sampleHeight)
        invariant forall q :: p < q < pols.Length ==> pols[q] == old(pols[q])
      {
        var vert := pols[p].Vertex(v);
        vert := vert.(y := terrainY);
        vert := vert.(y := vert.y + sampleHeight(pols[p].Vertex(v).x, pols[p].Vertex(v).z));
        pols[p] := pols[p].WithVertex(v, vert);
        v := v + 1;
      }
      assert pols[p].Vertex(0) == Grounded(before.v0, terrainY, sampleHeight);
      assert pols[p].Vertex(1) == Grounded(before.v1, terrainY, sampleHeight);
      assert pols[p].Vertex(2) == Grounded(before.v2, terrainY, sampleHeight);
      p := p + 1;
    }
  }

  /** Placing already placed corners again changes nothing */
  lemma GroundedIdempotent(p: Polygon, terrainY: real, sampleHeight: (real, real) -> real)
    ensures GroundedPolygon(GroundedPolygon(p, terrainY, sampleHeight), terrainY, sampleHeight)
         == GroundedPolygon(p, terrainY, sampleHeight)
  {
  }

  /** Whether two triangles have the same corners seen from above */
  predicate SameFootprint(p: Polygon, q: Polygon)
  {
    forall k :: 0 <= k < 3 ==> p.Vertex(k).x == q.Vertex(k).x && p.Vertex(k).z == q.Vertex(k).z
  }

  /**
   * Placing only moves corners vertically, and two triangles with the same
   * footprint end up as the same triangle, whatever their heights were.
   */
  lemma GroundedFootprint(p: Polygon, q: Polygon, terrainY: real, sampleHeight: (real, real) -> real)
    ensures SameFootprint(GroundedPolygon(p, terrainY, sampleHeight), p)
    ensures SameFootprint(p, q) <==> GroundedPolygon(p, terrainY, sampleHeight) == GroundedPolygon(q, terrainY, sampleHeight)
  {
    assert p.Vertex(0) == p.v0 && p.Vertex(1) == p.v1 && p.Vertex(2) == p.v2;
    assert q.Vertex(0) == q.v0 && q.Vertex(1) == q.v1 && q.Vertex(2) == q.v2;
    if GroundedPolygon(p, terrainY, sampleHeight) == GroundedPolygon(q, terrainY, sampleHeight) {
      assert Grounded(p.v0, terrainY, sampleHeight) == Grounded(q.v0, terrainY, sampleHeight);
      assert Grounded(p.v1, terrainY, sampleHeight) == Grounded(q.v1, terrainY, sampleHeight);
      assert Grounded(p.v2, terrainY, sampleHeight) == Grounded(q.v2, terrainY, sampleHeight);
    }
  }

  /**
   * The grid cell size `CreateFromTerrain` uses: the terrain's width over
   * the number of heightmap intervals, one cell per heightmap sample.
   */
  function CellSize(terrainSize: Vec3, heightmapResolution: int): real
    requires heightmapResolution > 1
  {
    terrainSize.x / (heightmapResolution - 1) as real
  }

  /** What `CreateFromTerrain` returns */
  function FromTerrainSpec(terrainPos: Vec3, terrainSize: Vec3, heightmapResolution: int, boundsCenter: Vec3,
                           boundsSize: Vec3, volume: TransformVolume, surfaceMaxAngle: real, angle: (Vec3, Vec3) -> real,
                           sampleHeight: (real, real) -> real): seq<Polygon>
    requires terrainSize.x > 0.0 && heightmapResolution > 1
  {
    var start := Sub(boundsCenter, Scale(boundsSize, 0.5));
    var end := Add(boundsCenter, Scale(boundsSize, 0.5));
    var size := CellSize(terrainSize, heightmapResolution);
    var pols := TerrainPlaneSpec(terrainPos, size, start, end, terrainSize);
    ClipAll(GroundAll(pols, terrainPos.y, sampleHeight), volume, surfaceMaxAngle, angle)
  }

  /**
   * `CreateFromTerrain`: the terrain at `terrainPos` with extent
   * `terrainSize`, tessellated over the decal's bounds, placed on the
   * surface and clipped. The terrain must have a positive width and at
   * least two heightmap samples per side, as every Unity terrain has.
   */
  method CreateFromTerrain(terrainPos: Vec3, terrainSize: Vec3, heightmapResolution: int, boundsCenter: Vec3,
                           boundsSize: Vec3, volume: TransformVolume, surfaceMaxAngle: real, angle: (Vec3, Vec3) -> real,
                           sampleHeight: (real, real) -> real)
    returns (result: seq<Polygon>)
    requires terrainSize.x > 0.0 && heightmapResolution > 1
    ensures result == FromTerrainSpec(terrainPos, terrainSize, heightmapResolution, boundsCenter, boundsSize,
                                      volume, surfaceMaxAngle, angle, sampleHeight)
  {
    var start := Sub(boundsCenter, Scale(boundsSize, 0.5));
    var end := Add(boundsCenter, Scale(boundsSize, 0.5));
    var size := terrainSize.x / (heightmapResolution - 1) as real;
    assert size == CellSize(terrainSize, heightmapResolution);
    var pols := TerrainPlane(terrainPos, size, start, end, terrainSize);
    var placed := new Polygon[|pols|](i requires 0 <= i < |pols| => pols[i]);
    PlaceOnTerrain(placed, terrainPos.y, sampleHeight);
    assert placed[..] == GroundAll(pols, terrainPos.y, sampleHeight);
    result := CutPolygons(placed[..], volume, surfaceMaxAngle, angle);
  }
}
