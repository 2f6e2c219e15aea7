/**
 * `DecalMesh.CutPolygons` and `DecalMesh.IsAngle`: keep the triangles the
 * decal volume touches and faces, and clip those crossing its border against
 * the volume's six side planes, one plane after the other.
 */
module Clipping {
  import opened Geometry
  import opened Polygons
  import opened PolygonCut
  import opened PolygonCutProperties

  /**
   * What `CutPolygons` asks of its `TransformVolume`: the volume's up axis,
   * whether a triangle's corners touch the volume (`IsInBounds`), whether
   * they cross its border (`IsOnBorder`), and the normal and a point of each
   * of its six sides (`GetSideDirection`, `GetSidePosition`). The volume's
   * class is not part of this model, so its queries are given as functions.
   */
  datatype TransformVolume = TransformVolume(
    up: Vec3,
    isInBounds: seq<Vec3> -> bool,
    isOnBorder: seq<Vec3> -> bool,
    sideDirection: int -> Vec3,
    sidePosition: int -> Vec3)

  /**
   * `IsAngle`: the angle between the volume's down axis and the triangle's
   * facing direction reaches `surfaceMaxAngle`. `angle` is `Vector3.Angle`.
   */
  predicate IsAngle(surfaceMaxAngle: real, up: Vec3, direction: Vec3, angle: (Vec3, Vec3) -> real)
  {
    angle(Neg(up), direction) >= surfaceMaxAngle
  }

  /** `new Plane(volume.GetSideDirection(s), volume.GetSidePosition(s))` */
  function SidePlane(volume: TransformVolume, s: int): Plane
  {
    PlaneThrough(volume.sideDirection(s), volume.sidePosition(s))
  }

  /** The pieces of every triangle of ps, in the order of ps */
  function ConcatMap(ps: seq<Polygon>, pieces: Polygon -> seq<Polygon>): seq<Polygon>
  {
    if ps == [] then [] else ConcatMap(ps[..|ps| - 1], pieces) + pieces(ps[|ps| - 1])
  }

  /** One pass of the `for c` loop: every piece cut by the plane, in order */
  function CutEach(ps: seq<Polygon>, pl: Plane): seq<Polygon>
  {
    ConcatMap(ps, t => CutSpec(t, pl))
  }

  /** The pieces left of a border triangle after the first n side planes */
  function ClipSides(p: Polygon, volume: TransformVolume, n: nat): seq<Polygon>
  {
    if n == 0 then [p] else CutEach(ClipSides(p, volume, n - 1), SidePlane(volume, n - 1))
  }

  /** The number of sides of the volume */
  const SideCount: nat := 6

  /** What one input triangle contributes to the result */
  function ClipOne(p: Polygon, volume: TransformVolume, surfaceMaxAngle: real, angle: (Vec3, Vec3) -> real): seq<Polygon>
  {
    if !volume.isInBounds(p.Vertices()) || !IsAngle(surfaceMaxAngle, volume.up, Direction(p), angle) then []
    else if !volume.isOnBorder(p.Vertices()) then [p]
    else ClipSides(p, volume, SideCount)
  }

  /** What `CutPolygons` returns */
  function ClipAll(ps: seq<Polygon>, volume: TransformVolume, surfaceMaxAngle: real, angle: (Vec3, Vec3) -> real): seq<Polygon>
  {
    ConcatMap(ps, p => ClipOne(p, volume, surfaceMaxAngle, angle))
  }

  /** The innermost `for c` loop of `CutPolygons`: every piece cut by one side plane, in order */
  method CutAll(tocut: seq<Polygon>, plane: Plane) returns (cutted: seq<Polygon>)
    ensures cutted == CutEach(tocut, plane)
  {
    cutted := [];
    var c := 0;
    while c < |tocut|
      invariant 0 <= c <= |tocut|
      invariant cutted == CutEach(tocut[..c], plane)
    {
      var pieces := Cut(tocut[c], plane);
      assert tocut[..c + 1][..c] == tocut[..c];
      cutted := cutted + pieces;
      c := c + 1;
    }
    assert tocut[..|tocut|] == tocut;
  }

  /** The `for s` loop of `CutPolygons`: a border triangle clipped by the six side planes in turn */
  method ClipBorder(polygon: Polygon, volume: TransformVolume) returns (tocut: seq<Polygon>)
    ensures tocut == ClipSides(polygon, volume, SideCount)
    ensures forall r, q, s :: r in tocut && q in r.Vertices() && 0 <= s < SideCount ==>
              !GetSide(SidePlane(volume, s), q)
  {
    tocut := [polygon];
    var s := 0;
    while s < 6
      invariant 0 <= s <= 6
      invariant tocut == ClipSides(polygon, volume, s)
    {
      var plane := PlaneThrough(volume.sideDirection(s), volume.sidePosition(s));
      tocut := CutAll(tocut, plane);
      s := s + 1;
    }
    ClipSidesWithin(polygon, volume, SideCount);
  }

  /** `CutPolygons` */
  method CutPolygons(polygons: seq<Polygon>, volume: TransformVolume, surfaceMaxAngle: real, angle: (Vec3, Vec3) -> real)
    returns (pols: seq<Polygon>)
    ensures pols == ClipAll(polygons, volume, surfaceMaxAngle, angle)
  {
    var up := volume.up;
    pols := [];
    var i := 0;
    while i < |polygons|
      invariant 0 <= i <= |polygons|
      invariant pols == ClipAll(polygons[..i], volume, surfaceMaxAngle, angle)
    {
      var polygon := polygons[i];
      assert polygons[..i + 1][..i] == polygons[..i];
      if !volume.isInBounds(polygon.Vertices()) || !IsAngle(surfaceMaxAngle, up, Direction(polygon), angle) {
        i := i + 1;
        continue;
      }
      if !volume.isOnBorder(polygon.Vertices()) {
        pols := pols + [polygon];
        i := i + 1;
        continue;
      }
      var tocut := ClipBorder(polygon, volume);
      pols := pols + tocut;
      i := i + 1;
    }
    assert polygons[..|polygons|] == polygons;
  }

  /* ---------------------------------------------------------------------- */
  /* Properties                                                              */
  /* ---------------------------------------------------------------------- */

  lemma {:induction false} ConcatMapAppend(xs: seq<Polygon>, ys: seq<Polygon>, pieces: Polygon -> seq<Polygon>)
    ensures ConcatMap(xs + ys, pieces) == ConcatMap(xs, pieces) + ConcatMap(ys, pieces)
    decreases |ys|
  {
    if ys == [] {
      assert xs + ys == xs;
    } else {
      var zs, init := xs + ys, ys[..|ys| - 1];
      assert zs[..|zs| - 1] == xs + init;
      ConcatMapAppend(xs, init, pieces);
    }
  }

  /** Each input triangle is handled on its own, and the output keeps the input order */
  lemma ClipAllAppend(xs: seq<Polygon>, ys: seq<Polygon>, volume: TransformVolume, surfaceMaxAngle: real,
                      angle: (Vec3, Vec3) -> real)
    ensures ClipAll(xs + ys, volume, surfaceMaxAngle, angle)
         == ClipAll(xs, volume, surfaceMaxAngle, angle) + ClipAll(ys, volume, surfaceMaxAngle, angle)
  {
    ConcatMapAppend(xs, ys, p => ClipOne(p, volume, surfaceMaxAngle, angle));
  }

  /** Whether the volume drops a triangle without looking at it further */
  predicate Rejected(p: Polygon, volume: TransformVolume, surfaceMaxAngle: real, angle: (Vec3, Vec3) -> real)
  {
    !volume.isInBounds(p.Vertices()) || !IsAngle(surfaceMaxAngle, volume.up, Direction(p), angle)
  }

  /** Whether a triangle lies inside the volume without crossing its border */
  predicate Interior(p: Polygon, volume: TransformVolume, surfaceMaxAngle: real, angle: (Vec3, Vec3) -> real)
  {
    !Rejected(p, volume, surfaceMaxAngle, angle) && !volume.isOnBorder(p.Vertices())
  }

  /** Triangles outside the volume, or facing the wrong way, contribute nothing */
  lemma {:induction false} ClipAllRejected(ps: seq<Polygon>, volume: TransformVolume, surfaceMaxAngle: real,
                                           angle: (Vec3, Vec3) -> real)
    requires forall p :: p in ps ==> Rejected(p, volume, surfaceMaxAngle, angle)
    ensures ClipAll(ps, volume, surfaceMaxAngle, angle) == []
    decreases |ps|
  {
    if ps != [] {
      assert ps[|ps| - 1] in ps;
      ClipAllRejected(ps[..|ps| - 1], volume, surfaceMaxAngle, angle);
    }
  }

  /** Triangles inside the volume and off its border come out unchanged */
  lemma {:induction false} ClipAllInterior(ps: seq<Polygon>, volume: TransformVolume, surfaceMaxAngle: real,
                                           angle: (Vec3, Vec3) -> real)
    requires forall p :: p in ps ==> Interior(p, volume, surfaceMaxAngle, angle)
    ensures ClipAll(ps, volume, surfaceMaxAngle, angle) == ps
    decreases |ps|
  {
    if ps != [] {
      var init, last := ps[..|ps| - 1], ps[|ps| - 1];
      assert last in ps;
      assert Interior(last, volume, surfaceMaxAngle, angle);
      assert ClipOne(last, volume, surfaceMaxAngle, angle) == [last];
      ClipAllInterior(init, volume, surfaceMaxAngle, angle);
      assert ClipAll(ps, volume, surfaceMaxAngle, angle) == init + [last];
      assert init + [last] == ps;
    }
  }

  /** 2 to the power n */
  function Pow2(n: nat): nat
  {
    if n == 0 then 1 else 2 * Pow2(n - 1)
  }

  /** Each `Cut` gives at most two pieces */
  lemma {:induction false} CutEachCount(ps: seq<Polygon>, pl: Plane)
    ensures |CutEach(ps, pl)| <= 2 * |ps|
    decreases |ps|
  {
    if ps != [] {
      CutEachCount(ps[..|ps| - 1], pl);
      var t := ps[|ps| - 1];
      assert |DevideFaceSpec(Slots(t, pl), Direction(t))| <= 2;
    }
  }

  /** After n planes a border triangle has become at most 2^n pieces */
  lemma {:induction false} ClipSidesCount(p: Polygon, volume: TransformVolume, n: nat)
    ensures |ClipSides(p, volume, n)| <= Pow2(n)
  {
    if n > 0 {
      var prev, pl := ClipSides(p, volume, n - 1), SidePlane(volume, n - 1);
      assert |prev| <= Pow2(n - 1) by { ClipSidesCount(p, volume, n - 1); }
      assert |CutEach(prev, pl)| <= 2 * |prev| by { CutEachCount(prev, pl); }
      assert ClipSides(p, volume, n) == CutEach(prev, pl);
    }
  }

  /** One input triangle yields at most 2^6 = 64 triangles */
  lemma {:induction false} ClipOneCount(p: Polygon, volume: TransformVolume, surfaceMaxAngle: real, angle: (Vec3, Vec3) -> real)
    ensures |ClipOne(p, volume, surfaceMaxAngle, angle)| <= 64
  {
    ClipSidesCount(p, volume, SideCount);
    assert Pow2(6) == 64;
  }

  /** Whether no corner of any piece lies strictly outside plane pl */
  predicate PiecesBehind(ps: seq<Polygon>, pl: Plane)
  {
    forall p, q :: p in ps && q in p.Vertices() ==> !GetSide(pl, q)
  }

  /** Every corner of every piece is on the kept side of the plane */
  lemma {:induction false} CutEachKeepsSide(ps: seq<Polygon>, pl: Plane)
    ensures PiecesBehind(CutEach(ps, pl), pl)
    decreases |ps|
  {
    if ps != [] {
      CutEachKeepsSide(ps[..|ps| - 1], pl);
      CutKeepsSide(ps[|ps| - 1], pl);
    }
  }

  /** Pieces whose corners are all behind another plane stay behind it once cut */
  lemma {:induction false} CutEachStaysBehind(ps: seq<Polygon>, pl: Plane, other: Plane)
    requires PiecesBehind(ps, other)
    ensures PiecesBehind(CutEach(ps, pl), other)
    decreases |ps|
  {
    if ps != [] {
      var last := ps[|ps| - 1];
      assert last in ps;
      assert last.Vertices() == [last.v0, last.v1, last.v2];
      CutEachStaysBehind(ps[..|ps| - 1], pl, other);
      CutStaysBehind(last, pl, other);
    }
  }

  /** After the first n side planes the pieces are behind each of them */
  lemma {:induction false} ClipSidesBehind(p: Polygon, volume: TransformVolume, n: nat)
    ensures forall s :: 0 <= s < n ==> PiecesBehind(ClipSides(p, volume, n), SidePlane(volume, s))
  {
    if n > 0 {
      var prev, pl := ClipSides(p, volume, n - 1), SidePlane(volume, n - 1);
      assert ClipSides(p, volume, n) == CutEach(prev, pl);
      ClipSidesBehind(p, volume, n - 1);
      forall s | 0 <= s < n - 1
        ensures PiecesBehind(CutEach(prev, pl), SidePlane(volume, s))
      {
        CutEachStaysBehind(prev, pl, SidePlane(volume, s));
      }
      CutEachKeepsSide(prev, pl);
    }
  }

  /**
   * After the first n side planes every corner of every piece lies within
   * each of them: the pieces are the part of the triangle inside those planes.
   */
  lemma {:induction false} ClipSidesWithin(p: Polygon, volume: TransformVolume, n: nat)
    ensures forall r, q, s :: r in ClipSides(p, volume, n) && q in r.Vertices() && 0 <= s < n ==>
              !GetSide(SidePlane(volume, s), q)
  {
    ClipSidesBehind(p, volume, n);
  }

  /** Whether no corner of t lies strictly outside plane pl */
  predicate Within(t: Polygon, pl: Plane)
  {
    !GetSide(pl, t.v0) && !GetSide(pl, t.v1) && !GetSide(pl, t.v2)
  }

  /**
   * A proper triangle (no corner at the origin, non-zero facing direction)
   * within the first n side planes comes through them whole.
   */
  lemma {:induction false} ClipSidesInside(p: Polygon, volume: TransformVolume, n: nat)
    requires forall s :: 0 <= s < n ==> Within(p, SidePlane(volume, s))
    requires p.v0 != Zero && p.v1 != Zero && p.v2 != Zero && Direction(p) != Zero
    ensures ClipSides(p, volume, n) == [p]
  {
    if n > 0 {
      ClipSidesInside(p, volume, n - 1);
      var pl := SidePlane(volume, n - 1);
      assert Within(p, pl);
      CutAllKept(p, pl);
      assert ClipSides(p, volume, n) == CutEach([p], pl);
      assert [p][..0] == [];
      assert CutEach([p], pl) == CutEach([], pl) + CutSpec(p, pl);
    }
  }
}
