/**
 * Terrain tessellation: `DecalMesh.GetSnapedPosition`, `IsInPlane`,
 * `PolygonFace`, `TerrainPlane` and the height loop of `CreateFromTerrain`.
 * A terrain is covered by a grid of square cells of side `gridSize`
 * starting at the terrain's corner `gridStart`; cell (i, j) is centred at
 * `gridStart + ((i + 0.5) * gridSize, 0, (j + 0.5) * gridSize)`.
 */
module TerrainGrid {
  import opened Geometry
  import opened Polygons

  /* ---------------------------------------------------------------------- */
  /* Snapping to cell centres                                                */
  /* ---------------------------------------------------------------------- */

  /** The index of the cell holding coordinate u along an axis starting at `start` */
  function CellIndex(u: real, start: real, gridSize: real): int
    requires gridSize > 0.0
  {
    ((u - start) / gridSize).Floor
  }

  /** The coordinate of the centre of cell k along an axis starting at `start` */
  function CellCentre(start: real, gridSize: real, k: int): real
  {
    start + (k as real * gridSize + gridSize * 0.5)
  }

  /** `GetSnapedPosition` */
  function SnapedPosition(position: Vec3, gridStart: Vec3, gridSize: real): Vec3
    requires gridSize > 0.0
  {
    var pos := Sub(position, gridStart);
    var x := (pos.x / gridSize).Floor;
    var z := (pos.z / gridSize).Floor;
    Vec3(gridStart.x + (x as real * gridSize + gridSize * 0.5),
         gridStart.y,
         gridStart.z + (z as real * gridSize + gridSize * 0.5))
  }

  /** The snapped position is the centre of the cell holding the point, at the grid's height */
  lemma SnapedIsCellCentre(position: Vec3, gridStart: Vec3, gridSize: real)
    requires gridSize > 0.0
    ensures SnapedPosition(position, gridStart, gridSize)
         == Vec3(CellCentre(gridStart.x, gridSize, CellIndex(position.x, gridStart.x, gridSize)),
                 gridStart.y,
                 CellCentre(gridStart.z, gridSize, CellIndex(position.z, gridStart.z, gridSize)))
  {
    assert (Sub(position, gridStart).x / gridSize).Floor == CellIndex(position.x, gridStart.x, gridSize);
    assert (Sub(position, gridStart).z / gridSize).Floor == CellIndex(position.z, gridStart.z, gridSize);
  }

  lemma DivLower(a: real, g: real, k: real)
    requires g > 0.0 && k <= a / g
    ensures k * g <= a
  {
    assert a / g * g == a;
    assert (a / g - k) * g >= 0.0;
  }

  lemma DivBelow(a: real, g: real, m: real)
    requires g > 0.0 && a / g < m
    ensures a < m * g
  {
  }

  lemma DivUpper(a: real, g: real, k: real)
    requires g > 0.0 && a / g < k + 1.0
    ensures a < (k + 1.0) * g
  {
    DivBelow(a, g, k + 1.0);
  }

  lemma Cancel(a: real, b: real, g: real)
    requires g > 0.0 && a * g == b
    ensures b / g == a
  {
  }

  /** A cell centre lies within half a cell of every point of the cell */
  lemma {:induction false} CentreNear(u: real, start: real, gridSize: real)
    requires gridSize > 0.0
    ensures var c := CellCentre(start, gridSize, CellIndex(u, start, gridSize));
            u - gridSize / 2.0 < c <= u + gridSize / 2.0
  {
    var k := CellIndex(u, start, gridSize);
    DivLower(u - start, gridSize, k as real);
    DivUpper(u - start, gridSize, k as real);
  }

  /** The cell of a cell's centre is that cell */
  lemma {:induction false} CellOfCentre(start: real, gridSize: real, k: int)
    requires gridSize > 0.0
    ensures CellIndex(CellCentre(start, gridSize, k), start, gridSize) == k
  {
    Cancel(k as real + 0.5, k as real * gridSize + gridSize * 0.5, gridSize);
  }

  /** The snapped position is within half a cell of the point on x and z */
  lemma {:induction false} SnapedNear(position: Vec3, gridStart: Vec3, gridSize: real)
    requires gridSize > 0.0
    ensures var r := SnapedPosition(position, gridStart, gridSize);
            && position.x - gridSize / 2.0 < r.x <= position.x + gridSize / 2.0
            && position.z - gridSize / 2.0 < r.z <= position.z + gridSize / 2.0
  {
    SnapedIsCellCentre(position, gridStart, gridSize);
    CentreNear(position.x, gridStart.x, gridSize);
    CentreNear(position.z, gridStart.z, gridSize);
  }

  /** Snapping a snapped point changes nothing */
  lemma {:induction false} SnapedIdempotent(position: Vec3, gridStart: Vec3, gridSize: real)
    requires gridSize > 0.0
    ensures var r := SnapedPosition(position, gridStart, gridSize);
            SnapedPosition(r, gridStart, gridSize) == r
  {
    var r := SnapedPosition(position, gridStart, gridSize);
    SnapedIsCellCentre(position, gridStart, gridSize);
    SnapedIsCellCentre(r, gridStart, gridSize);
    CellOfCentre(gridStart.x, gridSize, CellIndex(position.x, gridStart.x, gridSize));
    CellOfCentre(gridStart.z, gridSize, CellIndex(position.z, gridStart.z, gridSize));
  }

  /** `IsInPlane`: strictly inside the terrain's rectangle on x and z */
  predicate IsInPlane(position: Vec3, planePosition: Vec3, planeSize: Vec3)
  {
    position.x > planePosition.x && position.x < planePosition.x + planeSize.x
    && position.z > planePosition.z && position.z < planePosition.z + planeSize.z
  }

  /* ---------------------------------------------------------------------- */
  /* One cell                                                                */
  /* ---------------------------------------------------------------------- */

  /**
   * The four corners `PolygonFace` builds around `position`. With
   * Vector3.forward = (0, 0, 1) and Vector3.right = (1, 0, 0) the source's
   * offsets (-forward - right) * 0.5, (forward - right) * 0.5,
   * (forward + right) * 0.5 and (-forward + right) * 0.5 are the constant
   * vectors written here, each then scaled by `size`.
   */
  function FaceCorners(position: Vec3, size: real): (cs: seq<Vec3>)
    ensures |cs| == 4
  {
    [Add(position, Scale(Vec3(-0.5, 0.0, -0.5), size)),
     Add(position, Scale(Vec3(-0.5, 0.0, 0.5), size)),
     Add(position, Scale(Vec3(0.5, 0.0, 0.5), size)),
     Add(position, Scale(Vec3(0.5, 0.0, -0.5), size))]
  }

  /** `PolygonFace`: the square cell of side `size` centred at `position`, as two triangles */
  function PolygonFace(position: Vec3, size: real): (faces: seq<Polygon>)
    ensures |faces| == 2
  {
    var v := FaceCorners(position, size);
    [Polygon(v[0], v[1], v[2]), Polygon(v[2], v[3], v[0])]
  }

  /** The corners sit half a cell from the centre on x and z, at the centre's height */
  lemma FaceCornersAround(position: Vec3, size: real)
    ensures var h := size / 2.0;
            FaceCorners(position, size)
            == [Vec3(position.x - h, position.y, position.z - h), Vec3(position.x - h, position.y, position.z + h),
                Vec3(position.x + h, position.y, position.z + h), Vec3(position.x + h, position.y, position.z - h)]
  {
  }

  /** The two triangles share the diagonal from corner 0 to corner 2 and together use all four corners */
  lemma PolygonFaceSharesDiagonal(position: Vec3, size: real)
    ensures var f, c := PolygonFace(position, size), FaceCorners(position, size);
            && f[0].v0 == f[1].v2 == c[0] && f[0].v2 == f[1].v0 == c[2]
            && f[0].v1 == c[1] && f[1].v1 == c[3]
  {
  }

  /** Both triangles face up (+y), with the same unnormalised normal */
  lemma PolygonFaceFacesUp(position: Vec3, size: real)
    ensures var f := PolygonFace(position, size);
            Direction(f[0]) == Vec3(0.0, size * size, 0.0) && Direction(f[1]) == Vec3(0.0, size * size, 0.0)
  {
  }

  /* ---------------------------------------------------------------------- */
  /* The grid                                                                */
  /* ---------------------------------------------------------------------- */

  /** `facePos` for loop indices x and z */
  function FacePos(origin: Vec3, gridSize: real, x: int, z: int): Vec3
  {
    Add(origin, Vec3(x as real * gridSize, 0.0, z as real * gridSize))
  }

  /** What one cell contributes */
  function CellFaces(pos: Vec3, gridSize: real, gridStart: Vec3, planeSize: Vec3): seq<Polygon>
  {
    if IsInPlane(pos, gridStart, planeSize) then PolygonFace(pos, gridSize) else []
  }

  /** The faces of cells z = 0 .. nz - 1 of column x */
  function ColumnFaces(origin: Vec3, gridSize: real, x: int, nz: int, gridStart: Vec3, planeSize: Vec3): seq<Polygon>
    decreases nz
  {
    if nz <= 0 then []
    else ColumnFaces(origin, gridSize, x, nz - 1, gridStart, planeSize)
         + CellFaces(FacePos(origin, gridSize, x, nz - 1), gridSize, gridStart, planeSize)
  }

  /** The faces of columns x = 0 .. nx - 1 */
  function GridFaces(origin: Vec3, gridSize: real, nx: int, nz: int, gridStart: Vec3, planeSize: Vec3): seq<Polygon>
    decreases nx
  {
    if nx <= 0 then []
    else GridFaces(origin, gridSize, nx - 1, nz, gridStart, planeSize)
         + ColumnFaces(origin, gridSize, nx - 1, nz, gridStart, planeSize)
  }

  /** The number of cells `TerrainPlane` walks along an axis, from the snapped start and end coordinates */
  function CellCount(snapedStart: real, snapedEnd: real, gridSize: real): int
    requires gridSize > 0.0
  {
    ((snapedEnd - snapedStart) / gridSize).Floor + 1
  }

  /** What `TerrainPlane` returns */
  function TerrainPlaneSpec(gridStart: Vec3, gridSize: real, start: Vec3, end: Vec3, planeSize: Vec3): seq<Polygon>
    requires gridSize > 0.0
  {
    var snapedStart := SnapedPosition(start, gridStart, gridSize);
    var snapedEnd := SnapedPosition(end, gridStart, gridSize);
    GridFaces(snapedStart.(y := gridStart.y), gridSize,
              CellCount(snapedStart.x, snapedEnd.x, gridSize), CellCount(snapedStart.z, snapedEnd.z, gridSize),
              gridStart, planeSize)
  }

  /** The inner `for z` loop of `TerrainPlane`: the faces of column x */
  method ColumnLoop(snapedStart: Vec3, gridSize: real, x: int, sizeZ: int, gridStart: Vec3, planeSize: Vec3)
    returns (column: seq<Polygon>)
    ensures column == ColumnFaces(snapedStart, gridSize, x, sizeZ, gridStart, planeSize)
  {
    column := [];
    var z := 0;
    while z < sizeZ
      invariant 0 <= z <= (if sizeZ < 0 then 0 else sizeZ)
      invariant column == ColumnFaces(snapedStart, gridSize, x, z, gridStart, planeSize)
    {
      var facePos := Add(snapedStart, Vec3(x as real * gridSize, 0.0, z as real * gridSize));
      assert facePos == FacePos(snapedStart, gridSize, x, z);
      if IsInPlane(facePos, gridStart, planeSize) {
        column := column + PolygonFace(facePos, gridSize);
      }
      assert column == ColumnFaces(snapedStart, gridSize, x, z, gridStart, planeSize)
                       + CellFaces(facePos, gridSize, gridStart, planeSize);
      z := z + 1;
    }
  }

  /** `TerrainPlane` */
  method TerrainPlane(gridStart: Vec3, gridSize: real, start: Vec3, end: Vec3, planeSize: Vec3)
    returns (pols: seq<Polygon>)
    requires gridSize > 0.0
    ensures pols == TerrainPlaneSpec(gridStart, gridSize, start, end, planeSize)
  {
    pols := [];
    var snapedStart := SnapedPosition(start, gridStart, gridSize);
    var snapedEnd := SnapedPosition(end, gridStart, gridSize);
    var place := Sub(snapedEnd, snapedStart);
    var sizeX := (place.x / gridSize).Floor + 1;
    var sizeZ := (place.z / gridSize).Floor + 1;
    assert sizeX == CellCount(snapedStart.x, snapedEnd.x, gridSize);
    assert sizeZ == CellCount(snapedStart.z, snapedEnd.z, gridSize);
    snapedStart := snapedStart.(y := gridStart.y);
    var x := 0;
    while x < sizeX
      invariant 0 <= x <= (if sizeX < 0 then 0 else sizeX)
      invariant pols == GridFaces(snapedStart, gridSize, x, sizeZ, gridStart, planeSize)
    {
      var column := ColumnLoop(snapedStart, gridSize, x, sizeZ, gridStart, planeSize);
      pols := pols + column;
      x := x + 1;
    }
    if sizeX < 0 {
      assert x == 0;
    }
  }
}

module TerrainGridProperties {
  import opened Geometry
  import opened Polygons
  import opened TerrainGrid

  /** Every in-plane cell adds its two triangles, every other cell nothing */
  lemma {:induction false} ColumnFacesCount(origin: Vec3, gridSize: real, x: int, nz: int, gridStart: Vec3, planeSize: Vec3)
    ensures var n := |ColumnFaces(origin, gridSize, x, nz, gridStart, planeSize)|;
            n % 2 == 0 && n <= 2 * (if nz < 0 then 0 else nz)
    decreases nz
  {
    if nz > 0 {
      ColumnFacesCount(origin, gridSize, x, nz - 1, gridStart, planeSize);
    }
  }

  lemma CountStep(a: int, b: int, k: int, m: int)
    requires a % 2 == 0 && b % 2 == 0 && 0 <= k && 0 <= m
    requires a <= 2 * k * m && b <= 2 * m
    ensures (a + b) % 2 == 0 && a + b <= 2 * (k + 1) * m
  {
    assert 2 * (k + 1) * m == 2 * k * m + 2 * m;
  }

  /** The grid yields an even number of triangles, at most two per cell */
  lemma {:induction false} GridFacesCount(origin: Vec3, gridSize: real, nx: int, nz: int, gridStart: Vec3, planeSize: Vec3)
    ensures var n := |GridFaces(origin, gridSize, nx, nz, gridStart, planeSize)|;
            n % 2 == 0 && n <= 2 * (if nx < 0 then 0 else nx) * (if nz < 0 then 0 else nz)
    decreases nx
  {
    if nx > 0 {
      GridFacesCount(origin, gridSize, nx - 1, nz, gridStart, planeSize);
      ColumnFacesCount(origin, gridSize, nx - 1, nz, gridStart, planeSize);
      CountStep(|GridFaces(origin, gridSize, nx - 1, nz, gridStart, planeSize)|,
                |ColumnFaces(origin, gridSize, nx - 1, nz, gridStart, planeSize)|, nx - 1, if nz < 0 then 0 else nz);
    }
  }

  /** Whether cell (x, z) of the grid at `origin` lies inside the terrain and so contributes faces */
  predicate CellUsed(origin: Vec3, gridSize: real, x: int, z: int, gridStart: Vec3, planeSize: Vec3)
  {
    IsInPlane(FacePos(origin, gridSize, x, z), gridStart, planeSize)
  }

  /** A column holds exactly the faces of its in-plane cells */
  lemma {:induction false} ColumnFacesMembers(origin: Vec3, gridSize: real, x: int, nz: int, gridStart: Vec3,
                                              planeSize: Vec3, p: Polygon)
    ensures p in ColumnFaces(origin, gridSize, x, nz, gridStart, planeSize)
            <==> exists z :: 0 <= z < nz && CellUsed(origin, gridSize, x, z, gridStart, planeSize)
                             && p in PolygonFace(FacePos(origin, gridSize, x, z), gridSize)
    decreases nz
  {
    if nz > 0 {
      ColumnFacesMembers(origin, gridSize, x, nz - 1, gridStart, planeSize, p);
      var last := FacePos(origin, gridSize, x, nz - 1);
      if p in CellFaces(last, gridSize, gridStart, planeSize) {
        assert CellUsed(origin, gridSize, x, nz - 1, gridStart, planeSize);
      }
    }
  }

  /** The grid holds exactly the faces of its in-plane cells */
  lemma {:induction false} GridFacesMembers(origin: Vec3, gridSize: real, nx: int, nz: int, gridStart: Vec3,
                                            planeSize: Vec3, p: Polygon)
    ensures p in GridFaces(origin, gridSize, nx, nz, gridStart, planeSize)
            <==> exists x, z :: 0 <= x < nx && 0 <= z < nz && CellUsed(origin, gridSize, x, z, gridStart, planeSize)
                                && p in PolygonFace(FacePos(origin, gridSize, x, z), gridSize)
    decreases nx
  {
    if nx > 0 {
      GridFacesMembers(origin, gridSize, nx - 1, nz, gridStart, planeSize, p);
      ColumnFacesMembers(origin, gridSize, nx - 1, nz, gridStart, planeSize, p);
    }
  }

  /** Moving x cells on from the centre of cell i reaches the centre of cell i + x */
  lemma CentreShift(start: real, gridSize: real, i: int, x: int)
    ensures CellCentre(start, gridSize, i) + x as real * gridSize == CellCentre(start, gridSize, i + x)
  {
    assert (i + x) as real * gridSize == i as real * gridSize + x as real * gridSize;
  }

  /** The centres of cells i and j lie j - i cells apart */
  lemma {:induction false} CentreDistance(start: real, gridSize: real, i: int, j: int)
    requires gridSize > 0.0
    ensures (CellCentre(start, gridSize, j) - CellCentre(start, gridSize, i)) / gridSize == (j - i) as real
  {
    CentreShift(start, gridSize, i, j - i);
    Cancel((j - i) as real, CellCentre(start, gridSize, j) - CellCentre(start, gridSize, i), gridSize);
  }

  /**
   * `TerrainPlane` walks the cells from the one holding `start` to the one
   * holding `end` on each axis, both included: face (x, z) sits at the
   * centre of cell (ix + x, iz + z), at the grid's height, where (ix, iz)
   * is the cell of `start`, and there are iEnd - ix + 1 columns and
   * jEnd - iz + 1 rows.
   */
  lemma {:induction false} TerrainPlaneCells(gridStart: Vec3, gridSize: real, start: Vec3, end: Vec3, x: int, z: int)
    requires gridSize > 0.0
    ensures var s, e := SnapedPosition(start, gridStart, gridSize), SnapedPosition(end, gridStart, gridSize);
            var ix, iz := CellIndex(start.x, gridStart.x, gridSize), CellIndex(start.z, gridStart.z, gridSize);
            && FacePos(s.(y := gridStart.y), gridSize, x, z)
               == Vec3(CellCentre(gridStart.x, gridSize, ix + x), gridStart.y, CellCentre(gridStart.z, gridSize, iz + z))
            && CellCount(s.x, e.x, gridSize) == CellIndex(end.x, gridStart.x, gridSize) - ix + 1
            && CellCount(s.z, e.z, gridSize) == CellIndex(end.z, gridStart.z, gridSize) - iz + 1
  {
    var ix, iz := CellIndex(start.x, gridStart.x, gridSize), CellIndex(start.z, gridStart.z, gridSize);
    var jx, jz := CellIndex(end.x, gridStart.x, gridSize), CellIndex(end.z, gridStart.z, gridSize);
    SnapedIsCellCentre(start, gridStart, gridSize);
    SnapedIsCellCentre(end, gridStart, gridSize);
    CentreShift(gridStart.x, gridSize, ix, x);
    CentreShift(gridStart.z, gridSize, iz, z);
    CentreDistance(gridStart.x, gridSize, ix, jx);
    CentreDistance(gridStart.z, gridSize, iz, jz);
  }
}
