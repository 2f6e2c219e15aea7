/**
 * The decal generator's triangle (`Polygon`): three vertices, their centroid
 * and facing direction, the orientation rule used when re-assembling
 * clipped pieces, the edge/plane intersection and the point-in-triangle test.
 */
module Polygons {
  import opened Geometry

  datatype Polygon = Polygon(v0: Vec3, v1: Vec3, v2: Vec3)
  {
    /** The `Vertices` array, in order */
    function Vertices(): seq<Vec3> { [v0, v1, v2] }

    function Vertex(i: int): Vec3
      requires 0 <= i < 3
    {
      Vertices()[i]
    }

    /** The triangle with vertex i replaced by q */
    function WithVertex(i: int, q: Vec3): (p: Polygon)
      requires 0 <= i < 3
      ensures p.Vertex(i) == q && forall j :: 0 <= j < 3 && j != i ==> p.Vertex(j) == Vertex(j)
    {
      if i == 0 then Polygon(q, v1, v2) else if i == 1 then Polygon(v0, q, v2) else Polygon(v0, v1, q)
    }

    /** The same triangle with its winding reversed */
    function Reversed(): Polygon { Polygon(v2, v1, v0) }
  }

  /**
   * `GetDirection(v0, v1, v2)` before normalisation: the cross product of the
   * two edges leaving v0. Normalising only rescales it by a positive factor
   * (or leaves zero as zero), which `Opposed` ignores.
   */
  function Normal(a: Vec3, b: Vec3, c: Vec3): Vec3 { Cross(Sub(b, a), Sub(c, a)) }

  /** `Polygon.Direction`, unnormalised */
  function Direction(p: Polygon): Vec3 { Normal(p.v0, p.v1, p.v2) }

  /** `Polygon.Origin`: the centroid of the three vertices */
  function Origin(p: Polygon): (o: Vec3)
    ensures Scale(o, 3.0) == Add(Add(p.v0, p.v1), p.v2)
  {
    Div(Add(Add(p.v0, p.v1), p.v2), 3.0)
  }

  lemma CrossNegLeft(u: Vec3, v: Vec3)
    ensures Cross(Neg(u), v) == Neg(Cross(u, v))
  {
  }

  lemma CrossAddRight(u: Vec3, v: Vec3, w: Vec3)
    ensures Cross(u, Add(v, w)) == Add(Cross(u, v), Cross(u, w))
  {
  }

  lemma CrossSelf(u: Vec3)
    ensures Cross(u, u) == Zero
  {
  }

  /** Reversing the winding turns the facing direction around */
  lemma {:induction false} NormalReversed(a: Vec3, b: Vec3, c: Vec3)
    ensures Normal(c, b, a) == Neg(Normal(a, b, c))
  {
    var l, r := Normal(c, b, a), Neg(Normal(a, b, c));
    assert l.x == r.x && l.y == r.y && l.z == r.z;
  }

  /** Rotating the vertices keeps the facing direction */
  lemma {:induction false} NormalRotated(a: Vec3, b: Vec3, c: Vec3)
    ensures Normal(b, c, a) == Normal(a, b, c)
  {
    var l, r := Normal(b, c, a), Normal(a, b, c);
    assert l.x == r.x && l.y == r.y && l.z == r.z;
  }

  /**
   * The winding rule of `DevideFace`: a triangle whose facing direction is
   * exactly opposite to `direction` is emitted with its winding reversed,
   * any other one as given.
   */
  function Oriented(a: Vec3, b: Vec3, c: Vec3, direction: Vec3): (p: Polygon)
    ensures p == Polygon(a, b, c) || p == Polygon(c, b, a)
  {
    if Opposed(Normal(a, b, c), direction) then Polygon(c, b, a) else Polygon(a, b, c)
  }

  /**
   * Whatever the input winding, the triangle `Oriented` emits never faces
   * away from a non-zero `direction`.
   */
  lemma {:induction false} OrientedFacesDirection(a: Vec3, b: Vec3, c: Vec3, direction: Vec3)
    requires direction != Zero
    ensures !Opposed(Direction(Oriented(a, b, c, direction)), direction)
  {
    var n := Normal(a, b, c);
    if Opposed(n, direction) {
      NormalReversed(a, b, c);
      CrossNegLeft(n, direction);
      assert Dot(Neg(n), direction) == -Dot(n, direction);
    }
  }

  /**
   * The four-argument constructor as written. Only the triangle's own
   * facing direction is normalised, so the sum with `direction` is zero
   * exactly when `direction` is zero or of unit length and the two are
   * opposed (`OrientedAsWrittenExact`); then the winding is kept, and
   * otherwise reversed: the reverse of the rule `DevideFace` applies.
   */
  function OrientedAsWritten(v0: Vec3, v1: Vec3, v2: Vec3, direction: Vec3): (p: Polygon)
    ensures p == Polygon(v0, v1, v2) || p == Polygon(v2, v1, v0)
  {
    if Opposed(Normal(v0, v1, v2), direction) && (direction == Zero || Dot(direction, direction) == 1.0)
    then Polygon(v0, v1, v2)
    else Polygon(v2, v1, v0)
  }

  /**
   * `OrientedAsWritten` is the source's test `direction + dir == zero`,
   * where `dir` is the triangle's facing direction normalised by any factor
   * that normalises it.
   */
  lemma {:induction false} OrientedAsWrittenExact(v0: Vec3, v1: Vec3, v2: Vec3, direction: Vec3, dir: Vec3, k: real)
    requires NormalizedBy(dir, Normal(v0, v1, v2), k)
    ensures OrientedAsWritten(v0, v1, v2, direction)
         == if Add(direction, dir) == Zero then Polygon(v0, v1, v2) else Polygon(v2, v1, v0)
  {
    var n := Normal(v0, v1, v2);
    assert Add(direction, dir) == Add(dir, direction);
    if direction == Zero || Dot(direction, direction) == 1.0 {
      assert NormalizedBy(direction, direction, 1.0);
      NormalizedSumOpposed(n, direction, dir, direction, k, 1.0);
    } else if Add(direction, dir) == Zero {
      assert direction == Neg(dir);
      DotNegNeg(dir, dir);
      ScaleZero(n, k);
      assert false;
    }
  }

  /**
   * `Oriented` is the source's test `checkDir + direction == zero`, where
   * `checkDir` is the triangle's facing direction normalised and
   * `direction` arrives normalised (`Cut` passes the `Direction` property):
   * the model may keep both unnormalised.
   */
  lemma {:induction false} OrientedExact(a: Vec3, b: Vec3, c: Vec3, direction: Vec3, checkDir: Vec3, kc: real,
                                         unitDirection: Vec3, kd: real)
    requires NormalizedBy(checkDir, Normal(a, b, c), kc) && NormalizedBy(unitDirection, direction, kd)
    ensures Oriented(a, b, c, direction)
         == if Add(checkDir, unitDirection) == Zero then Polygon(c, b, a) else Polygon(a, b, c)
  {
    NormalizedSumOpposed(Normal(a, b, c), direction, checkDir, unitDirection, kc, kd);
  }

  lemma SampleNormal(a: Vec3, b: Vec3, c: Vec3)
    requires a == Vec3(1.0, 0.0, 0.0) && b == Vec3(0.0, 1.0, 0.0) && c == Vec3(0.0, 0.0, 1.0)
    ensures Normal(a, b, c) == Vec3(1.0, 1.0, 1.0)
  {
    assert Sub(b, a) == Vec3(-1.0, 1.0, 0.0);
    assert Sub(c, a) == Vec3(-1.0, 0.0, 1.0);
    CrossSample();
  }

  lemma SampleReversedNormal(a: Vec3, b: Vec3, c: Vec3)
    requires a == Vec3(1.0, 0.0, 0.0) && b == Vec3(0.0, 1.0, 0.0) && c == Vec3(0.0, 0.0, 1.0)
    ensures Normal(c, b, a) == Vec3(-1.0, -1.0, -1.0)
  {
    assert Sub(b, c) == Vec3(0.0, 1.0, -1.0);
    assert Sub(a, c) == Vec3(1.0, 0.0, -1.0);
    CrossSampleReversed();
  }

  lemma SampleOpposed()
    ensures Opposed(Vec3(-1.0, -1.0, -1.0), Vec3(1.0, 1.0, 1.0))
    ensures !Opposed(Vec3(1.0, 1.0, 1.0), Vec3(1.0, 1.0, 1.0))
    ensures Dot(Vec3(1.0, 1.0, 1.0), Vec3(1.0, 1.0, 1.0)) == 3.0
  {
  }

  /**
   * Asked for a triangle facing (1, 1, 1) from vertices already wound that
   * way (`SampleNormal`), the constructor as written returns it facing
   * (-1, -1, -1), exactly away from the requested direction.
   */
  lemma {:induction false} ConstructorFacesAway()
    ensures Opposed(Direction(OrientedAsWritten(Vec3(1.0, 0.0, 0.0), Vec3(0.0, 1.0, 0.0), Vec3(0.0, 0.0, 1.0),
                                                Vec3(1.0, 1.0, 1.0))), Vec3(1.0, 1.0, 1.0))
  {
    var a, b, c := Vec3(1.0, 0.0, 0.0), Vec3(0.0, 1.0, 0.0), Vec3(0.0, 0.0, 1.0);
    SampleNormal(a, b, c);
    SampleReversedNormal(a, b, c);
    SampleOpposed();
  }

  /**
   * `CutEdge`: the point where the ray from a towards b meets the plane; the
   * ray's start point a when the ray runs parallel to the plane.
   */
  function CutParam(pl: Plane, a: Vec3, b: Vec3): real
  {
    RaycastParam(pl, a, Sub(b, a))
  }

  function CutEdge(pl: Plane, a: Vec3, b: Vec3): Vec3
  {
    Lerp(a, b, CutParam(pl, a, b))
  }

  /**
   * For an edge from a discarded vertex (strictly on the normal's side) to a
   * kept one, the cut point lies on the plane, on the edge, strictly after a,
   * and is b exactly when b is on the plane.
   */
  lemma {:induction false} CutEdgeOnPlane(pl: Plane, a: Vec3, b: Vec3)
    requires GetSide(pl, a) && !GetSide(pl, b)
    ensures 0.0 < CutParam(pl, a, b) <= 1.0
    ensures SignedDistance(pl, CutEdge(pl, a, b)) == 0.0
    ensures CutParam(pl, a, b) == 1.0 <==> SignedDistance(pl, b) == 0.0
  {
    var sa, sb := SignedDistance(pl, a), SignedDistance(pl, b);
    var dir := Sub(b, a);
    assert Add(a, dir) == b;
    assert Dot(dir, pl.normal) == sb - sa;
    assert -Dot(a, pl.normal) - pl.distance == -sa;
    var t := CutParam(pl, a, b);
    assert t == -sa / (sb - sa);
    FractionBounds(sa, sb);
  }

  /**
   * The cut point lies between the edge's ends, so it stays behind any other
   * plane both ends are behind.
   */
  lemma {:induction false} CutEdgeNotAhead(pl: Plane, other: Plane, a: Vec3, b: Vec3)
    requires GetSide(pl, a) && !GetSide(pl, b)
    requires !GetSide(other, a) && !GetSide(other, b)
    ensures !GetSide(other, CutEdge(pl, a, b))
  {
    CutEdgeOnPlane(pl, a, b);
    LerpNotAhead(other, a, b, CutParam(pl, a, b));
  }

  lemma FractionBounds(sa: real, sb: real)
    requires sa > 0.0 && sb <= 0.0
    ensures 0.0 < -sa / (sb - sa) <= 1.0
    ensures -sa / (sb - sa) == 1.0 <==> sb == 0.0
  {
  }

  /**
   * `SameSide(p1, p2, a, b)`: p1 and p2 are not strictly on opposite sides of
   * the line through a and b (in the plane the three points span).
   */
  predicate SameSide(p1: Vec3, p2: Vec3, a: Vec3, b: Vec3)
  {
    Dot(Cross(Sub(b, a), Sub(p1, a)), Cross(Sub(b, a), Sub(p2, a))) >= 0.0
  }

  /** `IsInTriangle`: on the inner side of every edge, boundary included */
  predicate IsInTriangle(p: Vec3, a: Vec3, b: Vec3, c: Vec3)
  {
    SameSide(p, a, b, c) && SameSide(p, b, a, c) && SameSide(p, c, a, b)
  }

  /** `IsInsidePolygon` */
  predicate IsInsidePolygon(t: Polygon, p: Vec3)
  {
    IsInTriangle(p, t.v0, t.v1, t.v2)
  }

  lemma DotNegNeg(u: Vec3, v: Vec3)
    ensures Dot(Neg(u), Neg(v)) == Dot(u, v)
  {
  }

  /** Measuring from the other end of the edge flips both cross products */
  lemma {:induction false} EdgeCrossSwap(a: Vec3, b: Vec3, p: Vec3)
    ensures Cross(Sub(a, b), Sub(p, b)) == Neg(Cross(Sub(b, a), Sub(p, a)))
  {
    var l, r := Cross(Sub(a, b), Sub(p, b)), Neg(Cross(Sub(b, a), Sub(p, a)));
    assert l.x == r.x && l.y == r.y && l.z == r.z;
  }

  /** `SameSide` depends on the line through a and b, not on its direction */
  lemma {:induction false} SameSideSymmetric(p1: Vec3, p2: Vec3, a: Vec3, b: Vec3)
    ensures SameSide(p1, p2, a, b) == SameSide(p1, p2, b, a)
  {
    EdgeCrossSwap(a, b, p1);
    EdgeCrossSwap(a, b, p2);
    DotNegNeg(Cross(Sub(b, a), Sub(p1, a)), Cross(Sub(b, a), Sub(p2, a)));
  }

  /**
   * The inside test does not depend on the winding or on which vertex comes
   * first, so reversing a triangle (as `Oriented` may) keeps its inside.
   */
  lemma {:induction false} IsInTriangleSymmetric(p: Vec3, a: Vec3, b: Vec3, c: Vec3)
    ensures IsInTriangle(p, a, b, c) == IsInTriangle(p, b, c, a)
    ensures IsInTriangle(p, a, b, c) == IsInTriangle(p, c, b, a)
  {
    SameSideSymmetric(p, a, b, c);
    SameSideSymmetric(p, b, a, c);
    SameSideSymmetric(p, c, a, b);
  }

  lemma {:induction false} OrientedKeepsInside(a: Vec3, b: Vec3, c: Vec3, direction: Vec3, p: Vec3)
    ensures IsInsidePolygon(Oriented(a, b, c, direction), p) == IsInTriangle(p, a, b, c)
  {
    IsInTriangleSymmetric(p, a, b, c);
  }

  lemma DotSelfNonNegative(u: Vec3)
    ensures Dot(u, u) >= 0.0
  {
  }

  /** Every corner of a triangle passes the inside test */
  lemma {:induction false} VerticesInside(t: Polygon)
    ensures IsInsidePolygon(t, t.v0) && IsInsidePolygon(t, t.v1) && IsInsidePolygon(t, t.v2)
  {
    var a, b, c := t.v0, t.v1, t.v2;
    DotSelfNonNegative(Cross(Sub(c, b), Sub(a, b)));
    DotSelfNonNegative(Cross(Sub(c, a), Sub(b, a)));
    DotSelfNonNegative(Cross(Sub(b, a), Sub(c, a)));
    CrossSelf(Sub(c, a));
    CrossSelf(Sub(b, a));
    CrossSelf(Sub(c, b));
    assert Sub(a, a) == Zero && Sub(b, b) == Zero && Sub(c, c) == Zero;
  }
}
