/** Unity's Vector3, Vector2 and Plane, over exact real arithmetic. */
module Geometry {

  datatype Vec3 = Vec3(x: real, y: real, z: real)
  datatype Vec2 = Vec2(x: real, y: real)

  /** Vector3.zero, also used by the clipper as its "no value" sentinel */
  const Zero: Vec3 := Vec3(0.0, 0.0, 0.0)

  function Add(a: Vec3, b: Vec3): Vec3 { Vec3(a.x + b.x, a.y + b.y, a.z + b.z) }
  function Sub(a: Vec3, b: Vec3): Vec3 { Vec3(a.x - b.x, a.y - b.y, a.z - b.z) }
  function Neg(a: Vec3): Vec3 { Vec3(-a.x, -a.y, -a.z) }
  function Scale(a: Vec3, k: real): Vec3 { Vec3(a.x * k, a.y * k, a.z * k) }
  function Div(a: Vec3, k: real): Vec3
    requires k != 0.0
  {
    Vec3(a.x / k, a.y / k, a.z / k)
  }
  function Dot(a: Vec3, b: Vec3): real { a.x * b.x + a.y * b.y + a.z * b.z }
  function Cross(a: Vec3, b: Vec3): Vec3 {
    Vec3(a.y * b.z - a.z * b.y, a.z * b.x - a.x * b.z, a.x * b.y - a.y * b.x)
  }

  /** The point a + t * (b - a) of the line through a and b */
  function Lerp(a: Vec3, b: Vec3, t: real): Vec3 { Add(a, Scale(Sub(b, a), t)) }

  /**
   * The source's test `u.normalized + v.normalized == Vector3.zero`, decided
   * without a square root: both vectors are zero (normalising zero gives zero),
   * or they point in exactly opposite directions.
   */
  predicate Opposed(u: Vec3, v: Vec3) {
    (u == Zero && v == Zero) || (Cross(u, v) == Zero && Dot(u, v) < 0.0)
  }

  /** One component of a cross product scales with both factors */
  lemma MinorScale(a: real, b: real, c: real, d: real, k: real, m: real)
    ensures (a * k) * (b * m) - (c * k) * (d * m) == (a * b - c * d) * (k * m)
  {
  }

  lemma {:induction false} CrossScale(u: Vec3, v: Vec3, ku: real, kv: real)
    ensures Cross(Scale(u, ku), Scale(v, kv)) == Scale(Cross(u, v), ku * kv)
  {
    MinorScale(u.y, v.z, u.z, v.y, ku, kv);
    MinorScale(u.z, v.x, u.x, v.z, ku, kv);
    MinorScale(u.x, v.y, u.y, v.x, ku, kv);
    var l, r := Cross(Scale(u, ku), Scale(v, kv)), Scale(Cross(u, v), ku * kv);
    assert l.x == r.x && l.y == r.y && l.z == r.z;
  }

  lemma DotScale(u: Vec3, v: Vec3, ku: real, kv: real)
    ensures Dot(Scale(u, ku), Scale(v, kv)) == Dot(u, v) * (ku * kv)
  {
  }

  lemma ScaleZero(u: Vec3, k: real)
    requires k != 0.0
    ensures Scale(u, k) == Zero <==> u == Zero
  {
  }

  lemma PositiveProduct(a: real, b: real)
    requires a > 0.0 && b > 0.0
    ensures a * b > 0.0
  {
  }

  lemma SignScale(d: real, k: real)
    requires k > 0.0
    ensures d * k < 0.0 <==> d < 0.0
  {
  }

  /**
   * `Opposed` only depends on the directions of its arguments, so the model
   * may compare unnormalised vectors where the source compares normalised
   * ones (normalising multiplies by a positive factor).
   */
  lemma {:induction false} OpposedScaleInvariant(u: Vec3, v: Vec3, ku: real, kv: real)
    requires ku > 0.0 && kv > 0.0
    ensures Opposed(Scale(u, ku), Scale(v, kv)) <==> Opposed(u, v)
  {
    var k := ku * kv;
    PositiveProduct(ku, kv);
    ScaleZero(u, ku);
    ScaleZero(v, kv);
    CrossScale(u, v, ku, kv);
    ScaleZero(Cross(u, v), k);
    DotScale(u, v, ku, kv);
    SignScale(Dot(u, v), k);
  }

  /**
   * Whether n is `u.normalized`: u scaled by the positive factor k, and of
   * unit length unless u is zero (Unity normalises zero to zero).
   */
  predicate NormalizedBy(n: Vec3, u: Vec3, k: real)
  {
    k > 0.0 && n == Scale(u, k) && (u == Zero || Dot(n, n) == 1.0)
  }

  /** Lagrange's identity, component by component */
  lemma Lagrange(a1: real, a2: real, a3: real, b1: real, b2: real, b3: real)
    ensures (a2 * b3 - a3 * b2) * (a2 * b3 - a3 * b2) + (a3 * b1 - a1 * b3) * (a3 * b1 - a1 * b3)
            + (a1 * b2 - a2 * b1) * (a1 * b2 - a2 * b1)
         == (a1 * a1 + a2 * a2 + a3 * a3) * (b1 * b1 + b2 * b2 + b3 * b3)
            - (a1 * b1 + a2 * b2 + a3 * b3) * (a1 * b1 + a2 * b2 + a3 * b3)
  {
  }

  lemma SquarePositive(x: real)
    requires x != 0.0
    ensures x * x > 0.0
  {
    if x > 0.0 {
      PositiveProduct(x, x);
    } else {
      PositiveProduct(-x, -x);
      assert (-x) * (-x) == x * x;
    }
  }

  lemma SquareNonNegative(x: real)
    ensures x * x >= 0.0
  {
    if x != 0.0 {
      SquarePositive(x);
    }
  }

  /** The squared length of a non-zero vector is positive */
  lemma SquaresPositive(x: real, y: real, z: real)
    requires x != 0.0 || y != 0.0 || z != 0.0
    ensures x * x + y * y + z * z > 0.0
  {
    SquareNonNegative(x);
    SquareNonNegative(y);
    SquareNonNegative(z);
    if x != 0.0 {
      SquarePositive(x);
    } else if y != 0.0 {
      SquarePositive(y);
    } else {
      SquarePositive(z);
    }
  }

  lemma NegativeRoot(d: real)
    requires d * d == 1.0 && d < 0.0
    ensures d == -1.0
  {
    assert (d + 1.0) * (d - 1.0) == 0.0;
  }

  /** Two unit vectors add up to zero exactly when they point in opposite directions */
  lemma {:induction false} UnitSumOpposed(u: Vec3, v: Vec3)
    requires Dot(u, u) == 1.0 && Dot(v, v) == 1.0
    ensures Add(u, v) == Zero <==> Opposed(u, v)
  {
    var d := Dot(u, v);
    if Add(u, v) == Zero {
      assert v == Neg(u);
      assert u.y * -u.z - u.z * -u.y == 0.0 && u.z * -u.x - u.x * -u.z == 0.0 && u.x * -u.y - u.y * -u.x == 0.0;
      assert Cross(u, v) == Zero;
      assert d == -Dot(u, u);
    }
    if Opposed(u, v) {
      var c := Cross(u, v);
      Lagrange(u.x, u.y, u.z, v.x, v.y, v.z);
      assert c.x * c.x + c.y * c.y + c.z * c.z == 1.0 - d * d;
      NegativeRoot(d);
      var w := Add(u, v);
      assert w.x * w.x + w.y * w.y + w.z * w.z == Dot(u, u) + 2.0 * d + Dot(v, v);
      if w != Zero {
        SquaresPositive(w.x, w.y, w.z);
      }
    }
  }

  /**
   * The source's test `u.normalized + v.normalized == Vector3.zero` is
   * `Opposed(u, v)`: for whatever positive factors normalise u and v.
   */
  lemma {:induction false} NormalizedSumOpposed(u: Vec3, v: Vec3, nu: Vec3, nv: Vec3, ku: real, kv: real)
    requires NormalizedBy(nu, u, ku) && NormalizedBy(nv, v, kv)
    ensures Add(nu, nv) == Zero <==> Opposed(u, v)
  {
    OpposedScaleInvariant(u, v, ku, kv);
    ScaleZero(u, ku);
    ScaleZero(v, kv);
    if u == Zero {
      assert Add(nu, nv) == nv;
      assert Cross(u, v) == Zero && Dot(u, v) == 0.0;
    } else if v == Zero {
      assert Add(nu, nv) == nu;
      assert Cross(u, v) == Zero && Dot(u, v) == 0.0;
    } else {
      UnitSumOpposed(nu, nv);
    }
  }

  /** Two cross products of small integer vectors, used by worked examples */
  lemma CrossSample()
    ensures Cross(Vec3(-1.0, 1.0, 0.0), Vec3(-1.0, 0.0, 1.0)) == Vec3(1.0, 1.0, 1.0)
  {
  }

  lemma CrossSampleReversed()
    ensures Cross(Vec3(0.0, 1.0, -1.0), Vec3(1.0, 0.0, -1.0)) == Vec3(-1.0, -1.0, -1.0)
  {
  }

  /**
   * Unity's `new Plane(inNormal, inPoint)`. Unity normalises the normal; the
   * model keeps it as given, which leaves the sign of every side test and
   * every ray intersection point unchanged.
   */
  datatype Plane = Plane(normal: Vec3, distance: real)

  function SignedDistance(pl: Plane, p: Vec3): real { Dot(pl.normal, p) + pl.distance }

  /** Plane.GetSide: true when p is strictly on the side the normal points to */
  predicate GetSide(pl: Plane, p: Vec3) { SignedDistance(pl, p) > 0.0 }

  function PlaneThrough(inNormal: Vec3, inPoint: Vec3): (pl: Plane)
    ensures SignedDistance(pl, inPoint) == 0.0
    ensures forall p :: GetSide(pl, p) <==> Dot(inNormal, Sub(p, inPoint)) > 0.0
  {
    Plane(inNormal, -Dot(inNormal, inPoint))
  }

  /** The signed distance is affine along a line */
  lemma SignedDistanceLerp(pl: Plane, a: Vec3, b: Vec3, t: real)
    ensures SignedDistance(pl, Lerp(a, b, t))
         == SignedDistance(pl, a) + t * (SignedDistance(pl, b) - SignedDistance(pl, a))
  {
  }

  lemma ConvexNonPositive(sa: real, sb: real, t: real)
    requires sa <= 0.0 && sb <= 0.0 && 0.0 <= t <= 1.0
    ensures sa + t * (sb - sa) <= 0.0
  {
    assert sa + t * (sb - sa) == (1.0 - t) * sa + t * sb;
    NonNegativeTimesNonPositive(1.0 - t, sa);
    NonNegativeTimesNonPositive(t, sb);
  }

  lemma NonNegativeTimesNonPositive(k: real, d: real)
    requires k >= 0.0 && d <= 0.0
    ensures k * d <= 0.0
  {
    if k > 0.0 && d < 0.0 {
      PositiveProduct(k, -d);
      assert k * -d == -(k * d);
    }
  }

  /** A point between two points that are not strictly ahead of a plane is not either */
  lemma {:induction false} LerpNotAhead(pl: Plane, a: Vec3, b: Vec3, t: real)
    requires !GetSide(pl, a) && !GetSide(pl, b) && 0.0 <= t <= 1.0
    ensures !GetSide(pl, Lerp(a, b, t))
  {
    SignedDistanceLerp(pl, a, b, t);
    ConvexNonPositive(SignedDistance(pl, a), SignedDistance(pl, b), t);
  }

  /**
   * Plane.Raycast on the ray from `origin` along `dir`, returned as the
   * parameter of the hit point along the unnormalised `dir`: zero when the
   * ray is parallel to the plane (Unity sets `enter` to 0 there), otherwise
   * the signed parameter of the intersection.
   */
  function RaycastParam(pl: Plane, origin: Vec3, dir: Vec3): (t: real)
    ensures Dot(dir, pl.normal) != 0.0 ==> SignedDistance(pl, Lerp(origin, Add(origin, dir), t)) == 0.0
  {
    var vdot := Dot(dir, pl.normal);
    var ndot := -Dot(origin, pl.normal) - pl.distance;
    if vdot == 0.0 then 0.0
    else
      var t := ndot / vdot;
      assert Lerp(origin, Add(origin, dir), t) == Add(origin, Scale(dir, t));
      assert Dot(pl.normal, Add(origin, Scale(dir, t))) == Dot(pl.normal, origin) + t * vdot;
      t
  }
}
