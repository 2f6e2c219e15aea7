# Decal mesh geometry, modelled in Dafny

This project models the geometry core of the Unity decal generator
`SimpleDecalMesh`. A decal is a box-shaped volume that is projected onto the
scene. The generator builds the decal's mesh in these steps:

- collects the triangles of the terrains under the box, and of the scene
  objects' meshes in the decal's layers;
- keeps the triangles that the box touches and that face against the box's
  up axis;
- clips every triangle that crosses the box's border against the box's six
  side planes;
- welds the survivors into one vertex list and one index list;
- pushes every vertex a small distance along its normal;
- projects every vertex onto the box's footprint to get its texture
  coordinates.

The model covers the triangle type `Polygon` (`Polygon.cs`) and the
list-building and geometric parts of `DecalMesh` (`DecalMesh.cs`).

| module | file | what it models |
|---|---|---|
| `Geometry` | Geometry.dfy | `Vector3`, `Vector2` and `Plane` over exact reals; `Plane.GetSide`, `Plane.Raycast`, the normalised-sum test as the square-root-free `Opposed` |
| `Polygons` | Polygon.dfy | the `Polygon` struct: `Origin`, `Direction`, both constructors, `CutEdge`, `IsInsidePolygon` / `IsInTriangle` / `SameSide` |
| `PolygonCut` | PolygonCut.dfy | `Polygon.Cut` (four-slot buffer with `Vector3.zero` as the empty marker) and `Polygon.DevideFace`, as methods over arrays proved against specification functions |
| `PolygonCutProperties` | PolygonCut.dfy | what a cut keeps, drops and how the pieces face |
| `OriginCollision` | PolygonCut.dfy | a worked triangle whose cut point lands on the origin and is lost (see below) |
| `Clipping` | Clipping.dfy | `CutPolygons` and `IsAngle`: filtering, then clipping by six side planes |
| `MeshAssembly` | MeshAssembly.dfy | the vertex/index lists of `CreateMesh`, and `CreatePolygons` as their inverse |
| `TerrainGrid`, `TerrainGridProperties` | Terrain.dfy | `GetSnapedPosition`, `IsInPlane`, `PolygonFace`, `TerrainPlane` |
| `TerrainMesh` | TerrainMesh.dfy | `CreateFromTerrain`: the grid, the height loop that sets corners on the terrain in place, the clipping |
| `Projection` | Projection.dfy | `PushMesh` and `CreateUVs` |

Operations that change things step by step are methods with loops:

- `Cut`, `DevideFace`, `CutPolygons`, `TerrainPlane`, `CreateMesh`,
  `CreateFromTerrain`, `PushMesh`, `CreateUVs`;
- the height loop `PlaceOnTerrain`, which updates an `array<Polygon>` in
  place.

Each such method either is proved equal to a specification function, with
the properties proved about that function, or (`CreateMesh`) states its
output lists directly in its `ensures`, with `CreatePolygons` proved to be
their inverse.

Inner loop bodies are extracted into methods of their own. These are
`Store`, `StoreCuts`, `CutAll`, `ClipBorder`, `ColumnLoop`, `AddCorner`,
`SpriteRect`, `FillUVs` and `VertexUV`.

Calls into Unity that the model cannot see are function-typed parameters:

- the `TransformVolume` queries (`IsInBounds`, `IsOnBorder`,
  `GetSideDirection`, `GetSidePosition`);
- `Vector3.Angle`;
- `Terrain.SampleHeight`.

One behaviour of `Cut` is proved rather than corrected. `Cut` marks a free
slot of its buffer with `Vector3.zero`, so a cut point that lands exactly on
the origin is taken for a free slot and dropped (`OriginCollision`):

- a triangle with one corner above the plane y = 0 and an edge crossing that
  plane at the origin yields one triangle where two were due;
- this happens to any offered point that is exactly zero, a cut point or a
  kept corner alike (`PlaceAllSkipsZero`).

A lost point never puts a piece outside the box. Every corner of a piece is
a point the cut offered (`CutCornersOffered`), so the pieces of a border
triangle lie within all six side planes (`ClipSidesWithin`, `ClipBorder`).

## Model

| member | source | states |
|---|---|---|
| Geometry.PlaneThrough | Assets/SimpleDecalMesh/Scripts/DecalMesh.cs:161 | the side plane passes through the side's point, and a point is on the discarded side exactly when it lies ahead of that point along the side's normal |
| Geometry.RaycastParam | Assets/SimpleDecalMesh/Scripts/Polygon.cs:66-69 | whenever the ray is not parallel to the plane, the point at the returned parameter lies on the plane |
| Geometry.Opposed | Assets/SimpleDecalMesh/Scripts/Polygon.cs:79 | the facing test: both vectors zero, or parallel and pointing opposite ways (a definition; its partner is `NormalizedSumOpposed`) |
| Geometry.OpposedScaleInvariant | Assets/SimpleDecalMesh/Scripts/Polygon.cs:141-144 | the facing test gives the same answer for positively rescaled vectors |
| Geometry.UnitSumOpposed | Assets/SimpleDecalMesh/Scripts/Polygon.cs:79 | for two unit vectors, their sum is zero if and only if they are `Opposed` |
| Geometry.NormalizedSumOpposed | Assets/SimpleDecalMesh/Scripts/Polygon.cs:79 | `u.normalized + v.normalized == zero` if and only if `Opposed(u, v)`, for any factors that normalise u and v (a zero vector normalises to zero) |
| Geometry.GetSide | Assets/SimpleDecalMesh/Scripts/Polygon.cs:29 | `Plane.GetSide`: strictly ahead of the plane along its normal (a definition; `PlaneThrough` and `CutKeepsSide` state what it decides) |
| Polygons.Polygon.WithVertex | Assets/SimpleDecalMesh/Scripts/DecalMesh.cs:91-94 | writing one corner of a triangle sets that corner and leaves the other two as they were |
| Polygons.Origin | Assets/SimpleDecalMesh/Scripts/Polygon.cs:10 | the origin is the centroid: three times it is the sum of the corners |
| Polygons.NormalReversed | Assets/SimpleDecalMesh/Scripts/Polygon.cs:141-144 | reversing a triangle's winding reverses its facing direction |
| Polygons.NormalRotated | Assets/SimpleDecalMesh/Scripts/Polygon.cs:141-144 | rotating a triangle's corners keeps its facing direction |
| Polygons.Normal | Assets/SimpleDecalMesh/Scripts/Polygon.cs:141-144 | `GetDirection` before normalising: the cross product of the two edges from the first corner (a definition; `NormalReversed` and `NormalRotated` are its properties) |
| Polygons.Direction | Assets/SimpleDecalMesh/Scripts/Polygon.cs:11 | the `Direction` property before normalising (a definition) |
| Polygons.Oriented | Assets/SimpleDecalMesh/Scripts/Polygon.cs:79-81 | a triangle emitted by `DevideFace` has the given corners, in the given or the reversed order |
| Polygons.OrientedExact | Assets/SimpleDecalMesh/Scripts/Polygon.cs:79-81 | `Oriented` reverses the winding exactly when the normalised facing direction plus the normalised `direction` is zero, so `direction` may be passed unnormalised |
| Polygons.OrientedFacesDirection | Assets/SimpleDecalMesh/Scripts/Polygon.cs:79-81 | whatever the input winding, the emitted triangle never faces exactly away from a non-zero reference direction |
| Polygons.OrientedAsWritten | Assets/SimpleDecalMesh/Scripts/Polygon.cs:18-22 | the four-argument constructor keeps the corners, in the given or the reversed order |
| Polygons.OrientedAsWrittenExact | Assets/SimpleDecalMesh/Scripts/Polygon.cs:18-22 | `OrientedAsWritten` keeps the winding exactly when `direction` plus the normalised facing direction is zero, as the constructor's test reads, for any `direction` |
| Polygons.ConstructorFacesAway | Assets/SimpleDecalMesh/Scripts/Polygon.cs:18-22 | as written, the four-argument constructor turns a triangle that already faces the requested direction to face exactly away from it |
| Polygons.CutEdge | Assets/SimpleDecalMesh/Scripts/Polygon.cs:64-70 | `CutEdge`: the point of the ray from a through b at the parameter where it meets the plane (a definition; `CutEdgeOnPlane` states where that point lies) |
| Polygons.CutEdgeNotAhead | Assets/SimpleDecalMesh/Scripts/Polygon.cs:64-70 | the cut point lies between the edge's ends, so it is behind every plane both ends are behind |
| Polygons.CutEdgeOnPlane | Assets/SimpleDecalMesh/Scripts/Polygon.cs:64-70 | for an edge from a discarded to a kept corner, the cut point lies on the plane and on the edge strictly past the discarded corner; it is the kept corner exactly when that corner is on the plane |
| Polygons.SameSide | Assets/SimpleDecalMesh/Scripts/Polygon.cs:134-139 | `SameSide`: the two points are not strictly on opposite sides of the line through a and b (a definition) |
| Polygons.IsInTriangle | Assets/SimpleDecalMesh/Scripts/Polygon.cs:129-132 | `IsInTriangle`: on the inner side of all three edges, boundary included (a definition) |
| Polygons.IsInsidePolygon | Assets/SimpleDecalMesh/Scripts/Polygon.cs:124-127 | `IsInsidePolygon`: the inside test on the triangle's own corners (a definition; `VerticesInside` and `OrientedKeepsInside` are its properties) |
| Polygons.SameSideSymmetric | Assets/SimpleDecalMesh/Scripts/Polygon.cs:134-139 | the same-side test does not depend on the direction of the reference edge |
| Polygons.IsInTriangleSymmetric | Assets/SimpleDecalMesh/Scripts/Polygon.cs:129-132 | the inside test does not depend on where the corner list starts or on its winding |
| Polygons.OrientedKeepsInside | Assets/SimpleDecalMesh/Scripts/Polygon.cs:124-127 | flipping a triangle to face the reference direction does not change which points are inside it |
| Polygons.VerticesInside | Assets/SimpleDecalMesh/Scripts/Polygon.cs:124-132 | each corner of a triangle counts as inside it |
| PolygonCut.FirstEmpty | Assets/SimpleDecalMesh/Scripts/Polygon.cs:36-43 | the slot the store loop fills is the first slot holding the empty marker: all earlier slots are taken |
| PolygonCut.Store | Assets/SimpleDecalMesh/Scripts/Polygon.cs:48-55 | storing a point fills the first free slot of the buffer and changes nothing else (nothing when the buffer is full) |
| PolygonCut.StoreCuts | Assets/SimpleDecalMesh/Scripts/Polygon.cs:31-44 | for a discarded corner, the buffer receives the cut points toward each kept corner, in corner order |
| PolygonCut.Place | Assets/SimpleDecalMesh/Scripts/Polygon.cs:36-55 | storing one point into the four-slot buffer keeps its length (writes the first slot equal to zero, or nothing when none is) |
| PolygonCut.PlaceAll | Assets/SimpleDecalMesh/Scripts/Polygon.cs:27-59 | storing points in order keeps the buffer's length |
| PolygonCut.PlaceAllAppend | Assets/SimpleDecalMesh/Scripts/Polygon.cs:27-59 | storing two runs of points is storing the first run, then the second |
| PolygonCut.PlaceAllPrefixFilled | Assets/SimpleDecalMesh/Scripts/Polygon.cs:36-55 | the taken slots always form a prefix of the buffer |
| PolygonCut.PlaceAllFull | Assets/SimpleDecalMesh/Scripts/Polygon.cs:57 | once every slot is taken further stores change nothing, so leaving the loop early loses nothing |
| PolygonCut.PlaceAllExact | Assets/SimpleDecalMesh/Scripts/Polygon.cs:26-55 | up to four non-zero points stored into the empty buffer sit in order at its front, followed by free slots |
| PolygonCut.PlaceAllSkipsZero | Assets/SimpleDecalMesh/Scripts/Polygon.cs:38-40 | a zero point stored into the empty buffer is lost, and the following points move up one slot |
| PolygonCut.OfferedCount | Assets/SimpleDecalMesh/Scripts/Polygon.cs:27-59 | the cut offers four points when one corner is discarded, none when all three are, and three otherwise, so the four-slot buffer never overflows |
| PolygonCut.OfferedByCount | Assets/SimpleDecalMesh/Scripts/Polygon.cs:29-55 | a kept corner offers itself; a discarded corner offers one cut point per kept corner |
| PolygonCut.OfferedFirstDiscarded | Assets/SimpleDecalMesh/Scripts/Polygon.cs:27-59 | with only the first corner discarded, the offered points are the two cut points on its edges, then the two kept corners |
| PolygonCut.OfferedKept | Assets/SimpleDecalMesh/Scripts/Polygon.cs:27-59 | every point the cut offers lies on the kept side of the plane |
| PolygonCut.CutsTowardKept | Assets/SimpleDecalMesh/Scripts/Polygon.cs:31-44 | every cut point from a discarded corner lies on the kept side |
| PolygonCut.OfferedNotAhead | Assets/SimpleDecalMesh/Scripts/Polygon.cs:27-59 | every offered point is behind every other plane that all three corners are behind |
| PolygonCut.CutsTowardNotAhead | Assets/SimpleDecalMesh/Scripts/Polygon.cs:31-44 | the same for the cut points from one discarded corner |
| PolygonCut.RestIgnored | Assets/SimpleDecalMesh/Scripts/Polygon.cs:57 | once the fourth slot is taken, the outer loop's remaining iterations do not change the buffer |
| PolygonCut.DevideFaceSpec | Assets/SimpleDecalMesh/Scripts/Polygon.cs:72-122 | the split gives at most two triangles, and none exactly when the first slot is free |
| PolygonCut.DiagonalIsOutside | Assets/SimpleDecalMesh/Scripts/Polygon.cs:93-106 | the two corners chosen for the second triangle are the first slots whose probe point from the fourth slot falls outside the first triangle |
| PolygonCut.DiagonalFrom | Assets/SimpleDecalMesh/Scripts/Polygon.cs:93-106 | the corners the search loop picks are slots of the buffer, or zero when no corner was found |
| PolygonCut.DevideFaceOneTriangle | Assets/SimpleDecalMesh/Scripts/Polygon.cs:83-87 | with the fourth slot free, the result is the first three slots as one triangle facing the reference direction |
| PolygonCut.DevideFaceTwoTriangles | Assets/SimpleDecalMesh/Scripts/Polygon.cs:89-121 | with all four slots taken, the second triangle exists exactly when two probes fall outside the first, and it joins the fourth slot to those two corners |
| PolygonCut.DevideFaceVertices | Assets/SimpleDecalMesh/Scripts/Polygon.cs:72-122 | every corner of every result triangle is one of the buffer's points |
| PolygonCut.DevideFaceZeroCorner | Assets/SimpleDecalMesh/Scripts/Polygon.cs:72-122 | a result corner at the origin comes from one of the first three slots, because the second triangle uses taken slots only |
| PolygonCut.DevideFaceFacesDirection | Assets/SimpleDecalMesh/Scripts/Polygon.cs:72-122 | no result triangle faces exactly away from the reference direction |
| PolygonCut.DevideFace | Assets/SimpleDecalMesh/Scripts/Polygon.cs:72-122 | the method over the four-slot array returns the triangles its specification describes |
| PolygonCut.Cut | Assets/SimpleDecalMesh/Scripts/Polygon.cs:24-62 | the method fills the four-slot buffer as the offered stream dictates and splits it, as its specification describes |
| PolygonCutProperties.CutCornersOffered | Assets/SimpleDecalMesh/Scripts/Polygon.cs:24-62 | every corner of every piece is one of the points the cut offered to the buffer: a kept corner or a cut point. An empty slot under a taken first slot means the origin itself was offered |
| PolygonCutProperties.CutKeepsSide | Assets/SimpleDecalMesh/Scripts/Polygon.cs:24-62 | no corner of a piece lies strictly on the discarded side of the plane |
| PolygonCutProperties.CutStaysBehind | Assets/SimpleDecalMesh/Scripts/Polygon.cs:24-62 | a piece stays behind every other plane that all three corners of the cut triangle are behind |
| PolygonCutProperties.CutFacesDirection | Assets/SimpleDecalMesh/Scripts/Polygon.cs:24-62 | no piece faces exactly away from the triangle it was cut from |
| PolygonCutProperties.CutAllDiscarded | Assets/SimpleDecalMesh/Scripts/Polygon.cs:24-62 | a triangle wholly on the discarded side yields nothing |
| PolygonCutProperties.SlotsHoldOffered | Assets/SimpleDecalMesh/Scripts/Polygon.cs:26-59 | when no offered point is zero, the buffer holds exactly the offered points, in order |
| PolygonCutProperties.CutAllKept | Assets/SimpleDecalMesh/Scripts/Polygon.cs:24-62 | a proper triangle wholly on the kept side comes back unchanged |
| PolygonCutProperties.CutTwoDiscarded | Assets/SimpleDecalMesh/Scripts/Polygon.cs:24-62 | with two corners discarded, the result is one triangle made of the kept corner and the two cut points |
| PolygonCutProperties.CutOneDiscarded | Assets/SimpleDecalMesh/Scripts/Polygon.cs:24-62 | with one corner discarded, four points are offered; the first piece is the first three, and a second piece exists exactly when two of those, probed from the fourth, fall outside the first piece, joining the fourth point to them |
| OriginCollision.CutToOrigin | Assets/SimpleDecalMesh/Scripts/Polygon.cs:64-70 | in the worked triangle, the cut point on the first edge is the origin |
| OriginCollision.SampleOffered | Assets/SimpleDecalMesh/Scripts/Polygon.cs:27-59 | in the worked triangle, the first offered point is the origin |
| OriginCollision.SlotsLoseLeadingZero | Assets/SimpleDecalMesh/Scripts/Polygon.cs:36-43 | an offered origin point is taken for a free slot, so the buffer ends with a free slot |
| OriginCollision.CutLosesOriginPoint | Assets/SimpleDecalMesh/Scripts/Polygon.cs:24-62 | the worked triangle, whose cut should give a quadrilateral, yields a single triangle without the origin corner |
| Clipping.CutAll | Assets/SimpleDecalMesh/Scripts/DecalMesh.cs:162-166 | the `for c` loop returns the pieces of every triangle cut by the plane, in order |
| Clipping.ClipBorder | Assets/SimpleDecalMesh/Scripts/DecalMesh.cs:158-169 | a border triangle is clipped by the six side planes in turn, and every corner of every piece lies within all six planes |
| Clipping.CutPolygons | Assets/SimpleDecalMesh/Scripts/DecalMesh.cs:143-175 | the result is, per input triangle in order: nothing when it is out of bounds or at the wrong angle, itself when inside, its clipped pieces when on the border |
| Clipping.ClipAllAppend | Assets/SimpleDecalMesh/Scripts/DecalMesh.cs:148-172 | each input triangle is handled on its own and the output keeps the input order |
| Clipping.IsAngle | Assets/SimpleDecalMesh/Scripts/DecalMesh.cs:226-229 | `IsAngle`: the angle between the volume's down axis and the triangle's facing direction reaches the maximum surface angle (a definition over the `Vector3.Angle` parameter) |
| Clipping.ClipAllRejected | Assets/SimpleDecalMesh/Scripts/DecalMesh.cs:151 | triangles outside the volume, or facing the wrong way, contribute nothing |
| Clipping.ClipAllInterior | Assets/SimpleDecalMesh/Scripts/DecalMesh.cs:152-156 | triangles inside the volume and off its border come out unchanged |
| Clipping.CutEachCount | Assets/SimpleDecalMesh/Scripts/DecalMesh.cs:163-166 | one plane at most doubles the number of pieces |
| Clipping.ClipSidesCount | Assets/SimpleDecalMesh/Scripts/DecalMesh.cs:159-169 | after n side planes a border triangle is at most 2^n pieces |
| Clipping.ClipOneCount | Assets/SimpleDecalMesh/Scripts/DecalMesh.cs:150-171 | one input triangle yields at most 64 triangles |
| Clipping.CutEachKeepsSide | Assets/SimpleDecalMesh/Scripts/DecalMesh.cs:161-166 | after a plane, no corner of any piece lies strictly outside it |
| Clipping.CutEachStaysBehind | Assets/SimpleDecalMesh/Scripts/DecalMesh.cs:161-166 | cutting by one plane keeps the pieces behind every plane they were already behind |
| Clipping.ClipSidesWithin | Assets/SimpleDecalMesh/Scripts/DecalMesh.cs:159-169 | after the first n side planes, every corner of every piece lies within each of those planes: the pieces are the part of the triangle inside them |
| Clipping.ClipSidesInside | Assets/SimpleDecalMesh/Scripts/DecalMesh.cs:159-169 | a proper triangle within all the side planes comes through the clipping whole |
| MeshAssembly.Corners | Assets/SimpleDecalMesh/Scripts/DecalMesh.cs:106-108 | the corner stream holds three corners per triangle |
| MeshAssembly.CornerAt | Assets/SimpleDecalMesh/Scripts/DecalMesh.cs:106-108 | corner v of triangle i is at position 3i + v of the stream |
| MeshAssembly.IndexOf | Assets/SimpleDecalMesh/Scripts/DecalMesh.cs:114 | the index of a listed vertex is the first position holding it |
| MeshAssembly.AddCorner | Assets/SimpleDecalMesh/Scripts/DecalMesh.cs:110-126 | one more corner keeps the lists a faithful encoding of the corner stream: welded without duplicates, or one vertex per corner |
| MeshAssembly.CreateMesh | Assets/SimpleDecalMesh/Scripts/DecalMesh.cs:101-128 | every corner k is drawn from `vertices[triangles[k]]`; with welding the vertices are exactly the distinct corners; without it they are the corners themselves and index k is k |
| MeshAssembly.CreatePolygons | Assets/SimpleDecalMesh/Scripts/DecalMesh.cs:177-190 | one triangle per complete index triple |
| MeshAssembly.CreatePolygonsInvertsCreateMesh | Assets/SimpleDecalMesh/Scripts/DecalMesh.cs:177-190 | reading back the lists `CreateMesh` builds gives its input triangles, welded or not |
| TerrainGrid.SnapedPosition | Assets/SimpleDecalMesh/Scripts/DecalMesh.cs:278-290 | `GetSnapedPosition`: the floor of the offset from the grid's start, in cells, plus half a cell, at the start's height (a definition; the three lemmas below are its properties) |
| TerrainGrid.IsInPlane | Assets/SimpleDecalMesh/Scripts/DecalMesh.cs:292-296 | `IsInPlane`: strictly inside the terrain's rectangle on x and z (a definition) |
| TerrainGrid.SnapedIsCellCentre | Assets/SimpleDecalMesh/Scripts/DecalMesh.cs:278-290 | the snapped position is the centre of the grid cell holding the point, at the grid's height |
| TerrainGrid.CentreNear | Assets/SimpleDecalMesh/Scripts/DecalMesh.cs:283-287 | a cell's centre lies within half a cell of every point of the cell |
| TerrainGrid.CellOfCentre | Assets/SimpleDecalMesh/Scripts/DecalMesh.cs:283-287 | the cell holding a cell's centre is that cell |
| TerrainGrid.SnapedNear | Assets/SimpleDecalMesh/Scripts/DecalMesh.cs:278-290 | snapping moves a point by at most half a cell on x and z |
| TerrainGrid.SnapedIdempotent | Assets/SimpleDecalMesh/Scripts/DecalMesh.cs:278-290 | snapping a snapped point changes nothing |
| TerrainGrid.FaceCorners | Assets/SimpleDecalMesh/Scripts/DecalMesh.cs:258-269 | the four corners `PolygonFace` builds: always four |
| TerrainGrid.PolygonFace | Assets/SimpleDecalMesh/Scripts/DecalMesh.cs:258-276 | one cell is always two triangles |
| TerrainGrid.FaceCornersAround | Assets/SimpleDecalMesh/Scripts/DecalMesh.cs:260-269 | the four corners are half a cell from the centre on x and z, at the centre's height, going round the square |
| TerrainGrid.PolygonFaceSharesDiagonal | Assets/SimpleDecalMesh/Scripts/DecalMesh.cs:271-275 | the two triangles share the diagonal from corner 0 to corner 2 and together use all four corners |
| TerrainGrid.PolygonFaceFacesUp | Assets/SimpleDecalMesh/Scripts/DecalMesh.cs:258-276 | both triangles of a cell face straight up |
| TerrainGrid.ColumnLoop | Assets/SimpleDecalMesh/Scripts/DecalMesh.cs:245-252 | the inner loop adds the faces of the in-plane cells of one column, in order |
| TerrainGrid.TerrainPlane | Assets/SimpleDecalMesh/Scripts/DecalMesh.cs:231-256 | the method adds, column by column, the two triangles of every in-plane cell of the snapped range |
| TerrainGridProperties.ColumnFacesCount | Assets/SimpleDecalMesh/Scripts/DecalMesh.cs:245-252 | a column gives an even number of triangles, at most two per cell |
| TerrainGridProperties.GridFacesCount | Assets/SimpleDecalMesh/Scripts/DecalMesh.cs:243-253 | the grid gives an even number of triangles, at most two per cell |
| TerrainGridProperties.ColumnFacesMembers | Assets/SimpleDecalMesh/Scripts/DecalMesh.cs:245-252 | a triangle is in a column exactly when it is a face of one of its cells that lies inside the terrain |
| TerrainGridProperties.GridFacesMembers | Assets/SimpleDecalMesh/Scripts/DecalMesh.cs:243-253 | a triangle is in the grid exactly when it is a face of one of its cells that lies inside the terrain |
| TerrainGridProperties.CentreDistance | Assets/SimpleDecalMesh/Scripts/DecalMesh.cs:236-239 | the centres of cells i and j are j - i cells apart |
| TerrainGridProperties.TerrainPlaneCells | Assets/SimpleDecalMesh/Scripts/DecalMesh.cs:234-247 | the grid runs from the cell holding the start to the cell holding the end, both included, and face (x, z) is centred on cell (start + x, start + z) at the grid's height |
| TerrainMesh.PlaceOnTerrain | Assets/SimpleDecalMesh/Scripts/DecalMesh.cs:87-96 | every corner of every triangle is set on the terrain's surface, in place, and nothing else changes |
| TerrainMesh.GroundAll | Assets/SimpleDecalMesh/Scripts/DecalMesh.cs:87-96 | placing on the terrain keeps the number of triangles |
| TerrainMesh.Grounded | Assets/SimpleDecalMesh/Scripts/DecalMesh.cs:91-94 | a corner set on the terrain: x and z kept, y the terrain's height plus the height sampled at x and z (a definition) |
| TerrainMesh.GroundedIdempotent | Assets/SimpleDecalMesh/Scripts/DecalMesh.cs:91-94 | placing a placed triangle again changes nothing |
| TerrainMesh.GroundedFootprint | Assets/SimpleDecalMesh/Scripts/DecalMesh.cs:91-94 | placing moves corners only vertically, and two triangles end up equal exactly when they have the same footprint |
| TerrainMesh.CreateFromTerrain | Assets/SimpleDecalMesh/Scripts/DecalMesh.cs:80-99 | the result is the terrain grid over the decal's bounds, set on the surface, then clipped by the volume |
| Projection.PushMesh | Assets/SimpleDecalMesh/Scripts/DecalMesh.cs:49-60 | a new array in which each vertex is moved by the distance along the normal of the same index |
| Projection.Pushed | Assets/SimpleDecalMesh/Scripts/DecalMesh.cs:56 | one vertex moved by the distance along its normal (a definition; the lemmas below are its properties) |
| Projection.PushedUndo | Assets/SimpleDecalMesh/Scripts/DecalMesh.cs:56 | pushing back by the opposite distance restores the vertex |
| Projection.PushedAdds | Assets/SimpleDecalMesh/Scripts/DecalMesh.cs:56 | two pushes along the same normal add up |
| Projection.PushedMoves | Assets/SimpleDecalMesh/Scripts/DecalMesh.cs:56 | a vertex moves exactly when its normal and the distance are both non-zero |
| Projection.UVRect | Assets/SimpleDecalMesh/Scripts/DecalMesh.cs:195 | without a sprite the rectangle is the default one |
| Projection.SpriteRectInTextureUnits | Assets/SimpleDecalMesh/Scripts/DecalMesh.cs:197-203 | the sprite's rectangle is taken in texture units: times the texture's size it gives the pixel rectangle back |
| Projection.SpriteRect | Assets/SimpleDecalMesh/Scripts/DecalMesh.cs:195-203 | the step-by-step rescaling of the sprite's rectangle gives the rectangle in texture units |
| Projection.FillUVs | Assets/SimpleDecalMesh/Scripts/DecalMesh.cs:205-221 | the `for i` loop writes, into every slot of the array, the vertex's footprint position placed in the rectangle |
| Projection.VertexUV | Assets/SimpleDecalMesh/Scripts/DecalMesh.cs:207-218 | the step-by-step computation of one UV gives the vertex's footprint position placed in the rectangle |
| Projection.CreateUVs | Assets/SimpleDecalMesh/Scripts/DecalMesh.cs:192-224 | a new array holding, for each vertex, its footprint position placed in the rectangle; an empty vertex list needs no volume size |
| Projection.CentreUV | Assets/SimpleDecalMesh/Scripts/DecalMesh.cs:209-218 | the volume's centre maps to the middle of the doubled rectangle, (0.5, 0.5) without a sprite |
| Projection.DefaultIsFootprint | Assets/SimpleDecalMesh/Scripts/DecalMesh.cs:195-218 | without a sprite the UV is the footprint position itself |
| Projection.FootprintCorners | Assets/SimpleDecalMesh/Scripts/DecalMesh.cs:209-213 | the footprint runs from (0, 0) at the box's lower corner to (1, 1) at its upper corner |
| Projection.ProjectUV | Assets/SimpleDecalMesh/Scripts/DecalMesh.cs:207-218 | the UV of one vertex: its position on the volume's footprint, placed in the rectangle (a definition; the lemmas below are its properties) |
| Projection.ProjectUVIgnoresHeight | Assets/SimpleDecalMesh/Scripts/DecalMesh.cs:209-218 | the UV does not depend on the vertex's height |
| Projection.ProjectUVAffine | Assets/SimpleDecalMesh/Scripts/DecalMesh.cs:209-218 | the UV of a point on a segment is the same blend of the end points' UVs |
| Projection.WholeSpriteDoubled | Assets/SimpleDecalMesh/Scripts/DecalMesh.cs:215-218 | as written, a sprite covering its whole texture maps the far corner of the footprint to (2, 2) |
| Projection.CorrectedSpansRect | Assets/SimpleDecalMesh/Scripts/DecalMesh.cs:215-218 | the corrected mapping sends the footprint's corners to the rectangle's corners |
| Projection.CorrectedKeepsDefault | Assets/SimpleDecalMesh/Scripts/DecalMesh.cs:195-218 | without a sprite the corrected mapping gives the same UVs as the source |
| Projection.WholeSpriteCorrected | Assets/SimpleDecalMesh/Scripts/DecalMesh.cs:215-218 | with the correction, a whole-texture sprite maps the far corner to (1, 1) |

## Left out

- Floating point: coordinates are exact reals. The source's float rounding and Unity's approximate `Vector3 ==` (equal within 1e-5) are not modelled; `==` is exact equality, also for the empty-slot marker. `Mathf.FloorToInt` returns a 32-bit `int`; `TerrainGrid.CellIndex` uses an unbounded floor, which agrees for any real terrain extent.
- `.normalized`: facing directions are kept unnormalised, because normalising needs a square root. `DevideFace` normalises both sides of its test, and `Geometry.NormalizedSumOpposed` proves that the square-root-free `Opposed` decides the same. The four-argument constructor normalises only the triangle's direction; `Polygons.OrientedAsWritten` includes the unit-length condition that this leaves on `direction` (`Polygons.OrientedAsWrittenExact`).
- `PolygonCut.DevideFace` takes `direction` up to a positive factor: `Cut` passes the normalised `Direction`, the model passes the unnormalised facing direction, and `Polygons.OrientedExact` shows that both choose the same winding.
- `new Plane`: Unity normalises the normal; the model keeps it as given. The sides and the ray intersection points do not change.
- The 0.999 probe factor in `DevideFace` is the exact rational 0.999.
- `PolygonCut.DevideFaceSpec`: the model states which triangles `DevideFace` builds. It does not prove that they cover the clipped polygon.
- `DecalMesh.Create`: the orchestration (terrain and layer selection, bounds tests, the transform into the volume's local frame, mesh naming) is not modelled; the steps it calls are.
- `CreateFromObjects`: it reads meshes and transforms from the scene and is not modelled.
- `Mesh.Optimize`, `RecalculateNormals`, `RecalculateBounds` and the `Mesh` object: not modelled. `CreateMesh` is modelled up to the two lists it hands to Unity.
- `TransformVolume`, `DecalVolume` and the editor scripts: not part of this model. `IsInBounds`, `IsOnBorder`, `GetSideDirection`, `GetSidePosition` and the volume's up axis are fields of `Clipping.TransformVolume`.
- `Vector3.Angle`: a parameter of `IsAngle` (it needs an arccosine). The source passes the normalised `polygon.Direction`; `ClipOne` passes the unnormalised facing direction, which gives the same angle because `Vector3.Angle` does not change when an argument is scaled by a positive factor.
- `Terrain.SampleHeight`: a parameter taking x and z, because Unity samples the heightmap by horizontal position only.
- `Terrain.terrainData.heightmapResolution`: a plain parameter.
- `MeshAssembly.CreatePolygons`: requires valid indices (every index of a complete triple names a vertex). Unity refuses an out-of-range index list when `mesh.triangles` is assigned, so a mesh never holds one.
- `TerrainMesh.CreateFromTerrain`: requires a positive terrain width and a heightmap resolution above 1. Unity terrains always have both, and otherwise the cell size divides by zero.
- `TerrainGrid.TerrainPlane`: requires a positive cell size, which is what `CreateFromTerrain` passes under the condition above.
- `Projection.CreateUVs`: requires positive texture sizes, and a non-zero volume size on x and z when there is at least one vertex. Otherwise the source divides by zero and produces infinities or NaNs; an empty vertex list divides nothing.
- `Projection.PushMesh`: requires at least as many normals as vertices. Unity meshes have one normal per vertex, and the source indexes the normals by vertex.
- `Projection.PushMesh` and `Projection.CreateUVs` take the vertex list as a value. `mesh.vertices` returns a fresh copy, so nothing is shared.
- `TerrainMesh.PlaceOnTerrain`: `Polygon` is a C# struct holding a reference to its vertex array, so the height loop writes through `pols[p].Vertices`. The model stores the triangles as values in an `array<Polygon>` and replaces one corner of an element at a time. No two triangles share a vertex array in `TerrainPlane`'s output, so the outcome is the same.
- Inner loop bodies (`Store`, `StoreCuts`, `CutAll`, `ClipBorder`, `ColumnLoop`, `AddCorner`, `SpriteRect`, `FillUVs`, `VertexUV`) are methods of their own. Each has the contract its loop needs. `CreateUVs` calls `FillUVs` only when there is a vertex, where the source's loop simply does not run.

## Findings

| source | as written | input that shows it | evidently intended | confidence | as-written member | corrected member |
|---|---|---|---|---|---|---|
| Assets/SimpleDecalMesh/Scripts/Polygon.cs:18-22 | the four-argument constructor keeps the winding when the triangle faces exactly away from `direction` and `direction` has unit length (or is zero), and reverses it otherwise | corners (1,0,0), (0,1,0), (0,0,1) with direction (1,1,1): the triangle already faces (1,1,1) and comes out facing (-1,-1,-1) | reverse only when the triangle faces away, as `DevideFace` does at lines 79-81 and 116-118 | high, not executed | Polygons.ConstructorFacesAway | Polygons.OrientedFacesDirection |
| Assets/SimpleDecalMesh/Scripts/DecalMesh.cs:215-218 | the rectangle's size and corner are doubled for every rectangle. That fits the default half-unit rectangle but not a sprite's rectangle, which is already in texture units | a sprite covering its whole texture: the far corner of the volume's footprint gets UV (2, 2), outside the texture | the footprint covers exactly the sprite's rectangle, and the whole texture when there is no sprite | medium, not executed | Projection.WholeSpriteDoubled | Projection.CorrectedSpansRect |
