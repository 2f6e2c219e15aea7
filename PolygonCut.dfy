/**
 * `Polygon.Cut` and `Polygon.DevideFace`: clipping one triangle against a
 * plane. The vertices strictly on the plane's positive side are discarded;
 * each one is replaced by the points where its edges towards kept vertices
 * cross the plane. The surviving points are collected in a four-slot buffer
 * whose empty slots hold `Vector3.zero`, and the buffer is re-assembled into
 * one or two triangles.
 */
module PolygonCut {
  import opened Geometry
  import opened Polygons

  /* ---------------------------------------------------------------------- */
  /* The four-slot buffer                                                    */
  /* ---------------------------------------------------------------------- */

  /** A fresh `new Vector3[4]`: every slot empty */
  const EmptySlots: seq<Vec3> := [Zero, Zero, Zero, Zero]

  /** Index of the first empty slot, |b| when every slot is taken */
  function FirstEmpty(b: seq<Vec3>): (k: nat)
    ensures k <= |b|
    ensures forall j :: 0 <= j < k ==> b[j] != Zero
    ensures k < |b| ==> b[k] == Zero
  {
    if b == [] then 0
    else if b[0] == Zero then 0
    else 1 + FirstEmpty(b[1..])
  }

  /**
   * The inner `for j` loop of `Cut`: store p in the first empty slot, or drop
   * it when the buffer is full.
   */
  function Place(b: seq<Vec3>, p: Vec3): (r: seq<Vec3>)
    ensures |r| == |b|
  {
    var k := FirstEmpty(b);
    if k < |b| then b[k := p] else b
  }

  /** The buffer after the points ps were offered in order */
  function PlaceAll(b: seq<Vec3>, ps: seq<Vec3>): (r: seq<Vec3>)
    ensures |r| == |b|
    decreases |ps|
  {
    if ps == [] then b else Place(PlaceAll(b, ps[..|ps| - 1]), ps[|ps| - 1])
  }

  /** Taken slots come before empty ones */
  predicate PrefixFilled(b: seq<Vec3>)
  {
    forall i, j :: 0 <= i < j < |b| && b[i] == Zero ==> b[j] == Zero
  }

  predicate NoneZero(ps: seq<Vec3>)
  {
    forall i :: 0 <= i < |ps| ==> ps[i] != Zero
  }

  function Zeros(n: nat): (z: seq<Vec3>)
    ensures |z| == n && forall i :: 0 <= i < n ==> z[i] == Zero
  {
    seq(n, _ => Zero)
  }

  /** Offering two batches one after the other is offering their concatenation */
  lemma {:induction false} PlaceAllAppend(b: seq<Vec3>, xs: seq<Vec3>, ys: seq<Vec3>)
    ensures PlaceAll(b, xs + ys) == PlaceAll(PlaceAll(b, xs), ys)
    decreases |ys|
  {
    if ys == [] {
      assert xs + ys == xs;
    } else {
      var n := |ys| - 1;
      assert (xs + ys)[..|xs + ys| - 1] == xs + ys[..n];
      assert (xs + ys)[|xs + ys| - 1] == ys[n];
      PlaceAllAppend(b, xs, ys[..n]);
    }
  }

  lemma PlacePrefixFilled(b: seq<Vec3>, p: Vec3)
    requires PrefixFilled(b)
    ensures PrefixFilled(Place(b, p))
  {
  }

  /** Whatever is offered, taken slots stay before empty ones */
  lemma {:induction false} PlaceAllPrefixFilled(b: seq<Vec3>, ps: seq<Vec3>)
    requires PrefixFilled(b)
    ensures PrefixFilled(PlaceAll(b, ps))
    decreases |ps|
  {
    if ps != [] {
      PlaceAllPrefixFilled(b, ps[..|ps| - 1]);
      PlacePrefixFilled(PlaceAll(b, ps[..|ps| - 1]), ps[|ps| - 1]);
    }
  }

  /** A full buffer ignores every further point */
  lemma {:induction false} PlaceAllFull(b: seq<Vec3>, ps: seq<Vec3>)
    requires NoneZero(b)
    ensures PlaceAll(b, ps) == b
    decreases |ps|
  {
    if ps != [] {
      PlaceAllFull(b, ps[..|ps| - 1]);
    }
  }

  /** When the last slot is taken and slots fill in order, the buffer is full */
  lemma LastTakenIsFull(b: seq<Vec3>)
    requires |b| > 0 && PrefixFilled(b) && b[|b| - 1] != Zero
    ensures NoneZero(b)
  {
  }

  /** Every slot holds a point that was there before, an offered point, or zero */
  lemma {:induction false} PlaceAllFrom(b: seq<Vec3>, ps: seq<Vec3>, q: Vec3)
    requires q in PlaceAll(b, ps)
    ensures q in b || q in ps
    decreases |ps|
  {
    if ps != [] {
      var front := ps[..|ps| - 1];
      var c := PlaceAll(b, front);
      if q in c {
        PlaceAllFrom(b, front, q);
        assert q in b || q in ps by {
          if q in front {
            var i :| 0 <= i < |front| && front[i] == q;
            assert ps[i] == q;
          }
        }
      } else {
        assert q == ps[|ps| - 1];
      }
    }
  }

  /**
   * Nothing is lost while the buffer has room and no offered point is the
   * zero vector: the slots are the offered points in order, then empty ones.
   */
  lemma {:induction false} PlaceAllExact(ps: seq<Vec3>)
    requires |ps| <= 4 && NoneZero(ps)
    ensures PlaceAll(EmptySlots, ps) == ps + Zeros(4 - |ps|)
    decreases |ps|
  {
    if ps != [] {
      var n := |ps| - 1;
      var front := ps[..n];
      PlaceAllExact(front);
      var c := front + Zeros(4 - n);
      var k := FirstEmpty(c);
      assert c[n] == Zero;
      assert k == n;
      assert c[n := ps[n]] == ps + Zeros(4 - |ps|);
    }
  }

  /** Offering the zero vector leaves the buffer as it was */
  lemma {:induction false} PlaceZero(b: seq<Vec3>)
    ensures Place(b, Zero) == b
  {
    var k := FirstEmpty(b);
    if k < |b| {
      assert b[k := Zero] == b;
    }
  }

  /** A zero vector offered first is lost: the buffer looks as if it never came */
  lemma {:induction false} PlaceAllSkipsZero(ps: seq<Vec3>)
    requires |ps| <= 4 && NoneZero(ps)
    ensures PlaceAll(EmptySlots, [Zero] + ps) == ps + Zeros(4 - |ps|)
  {
    PlaceAllAppend(EmptySlots, [Zero], ps);
    assert [Zero][..0] == [];
    PlaceZero(EmptySlots);
    assert PlaceAll(EmptySlots, [Zero]) == EmptySlots;
    PlaceAllExact(ps);
  }

  /* ---------------------------------------------------------------------- */
  /* The points `Cut` offers to the buffer                                   */
  /* ---------------------------------------------------------------------- */

  /**
   * The inner `for v` loop for a discarded vertex i, over v < n: the cut
   * points on the edges from vertex i towards the kept vertices, in order.
   */
  function CutsToward(t: Polygon, pl: Plane, i: int, n: int): seq<Vec3>
    requires 0 <= i < 3 && 0 <= n <= 3
  {
    if n == 0 then []
    else
      CutsToward(t, pl, i, n - 1)
      + (if n - 1 == i || GetSide(pl, t.Vertex(n - 1)) then []
         else [CutEdge(pl, t.Vertex(i), t.Vertex(n - 1))])
  }

  /** What the `i` iteration of the outer loop offers */
  function OfferedBy(t: Polygon, pl: Plane, i: int): seq<Vec3>
    requires 0 <= i < 3
  {
    if GetSide(pl, t.Vertex(i)) then CutsToward(t, pl, i, 3) else [t.Vertex(i)]
  }

  /** What the first n iterations of the outer loop offer */
  function OfferedUpTo(t: Polygon, pl: Plane, n: int): seq<Vec3>
    requires 0 <= n <= 3
  {
    if n == 0 then [] else OfferedUpTo(t, pl, n - 1) + OfferedBy(t, pl, n - 1)
  }

  function Offered(t: Polygon, pl: Plane): seq<Vec3>
  {
    OfferedUpTo(t, pl, 3)
  }

  /** The buffer `Cut` hands to `DevideFace` */
  function Slots(t: Polygon, pl: Plane): seq<Vec3>
  {
    PlaceAll(EmptySlots, Offered(t, pl))
  }

  /** How many vertices lie strictly on the discarded side */
  function Discarded(t: Polygon, pl: Plane): (k: nat)
    ensures k <= 3
  {
    (if GetSide(pl, t.v0) then 1 else 0)
    + (if GetSide(pl, t.v1) then 1 else 0)
    + (if GetSide(pl, t.v2) then 1 else 0)
  }

  /**
   * Each discarded vertex contributes one point per kept vertex and each
   * kept vertex contributes itself, so at most four points are ever
   * offered and the buffer is large enough.
   */
  lemma {:induction false} OfferedCount(t: Polygon, pl: Plane)
    ensures var k := Discarded(t, pl);
            |Offered(t, pl)| == if k == 1 then 4 else if k == 3 then 0 else 3
  {
    OfferedUnfold(t, pl);
    OfferedByCount(t, pl, 0);
    OfferedByCount(t, pl, 1);
    OfferedByCount(t, pl, 2);
  }

  lemma {:induction false} OfferedUnfold(t: Polygon, pl: Plane)
    ensures Offered(t, pl) == OfferedBy(t, pl, 0) + OfferedBy(t, pl, 1) + OfferedBy(t, pl, 2)
  {
    assert OfferedUpTo(t, pl, 0) == [];
    assert OfferedUpTo(t, pl, 1) == [] + OfferedBy(t, pl, 0) == OfferedBy(t, pl, 0);
    assert OfferedUpTo(t, pl, 2) == OfferedBy(t, pl, 0) + OfferedBy(t, pl, 1);
  }

  /** A discarded vertex offers one cut per kept vertex, a kept one itself */
  lemma {:induction false} OfferedByCount(t: Polygon, pl: Plane, i: int)
    requires 0 <= i < 3
    ensures |OfferedBy(t, pl, i)| == if GetSide(pl, t.Vertex(i)) then 3 - Discarded(t, pl) else 1
  {
    assert t.Vertex(0) == t.v0 && t.Vertex(1) == t.v1 && t.Vertex(2) == t.v2;
    var c0, c1, c2 := CutsToward(t, pl, i, 1), CutsToward(t, pl, i, 2), CutsToward(t, pl, i, 3);
    assert CutsToward(t, pl, i, 0) == [];
    assert |c0| == if i == 0 || GetSide(pl, t.v0) then 0 else 1;
    assert |c1| == |c0| + if i == 1 || GetSide(pl, t.v1) then 0 else 1;
    assert |c2| == |c1| + if i == 2 || GetSide(pl, t.v2) then 0 else 1;
  }

  /**
   * With only the first corner discarded, the buffer is offered the cut
   * points towards the second and third corners, then those two corners.
   */
  lemma {:induction false} OfferedFirstDiscarded(t: Polygon, pl: Plane)
    requires GetSide(pl, t.v0) && !GetSide(pl, t.v1) && !GetSide(pl, t.v2)
    ensures Offered(t, pl) == [CutEdge(pl, t.v0, t.v1), CutEdge(pl, t.v0, t.v2), t.v1, t.v2]
  {
    OfferedUnfold(t, pl);
    assert t.Vertex(0) == t.v0 && t.Vertex(1) == t.v1 && t.Vertex(2) == t.v2;
    assert CutsToward(t, pl, 0, 1) == [];
    assert CutsToward(t, pl, 0, 2) == [CutEdge(pl, t.v0, t.v1)];
  }

  /** Every offered point is on the kept side of the plane (or on it) */
  lemma {:induction false} OfferedKept(t: Polygon, pl: Plane)
    ensures forall q :: q in Offered(t, pl) ==> !GetSide(pl, q)
  {
    forall i, n | 0 <= i < 3 && 0 <= n <= 3 && GetSide(pl, t.Vertex(i))
      ensures forall q :: q in CutsToward(t, pl, i, n) ==> !GetSide(pl, q)
    {
      CutsTowardKept(t, pl, i, n);
    }
    OfferedUnfold(t, pl);
  }

  lemma {:induction false} CutsTowardKept(t: Polygon, pl: Plane, i: int, n: int)
    requires 0 <= i < 3 && 0 <= n <= 3 && GetSide(pl, t.Vertex(i))
    ensures forall q :: q in CutsToward(t, pl, i, n) ==> !GetSide(pl, q)
  {
    if n > 0 {
      CutsTowardKept(t, pl, i, n - 1);
      if n - 1 != i && !GetSide(pl, t.Vertex(n - 1)) {
        CutEdgeOnPlane(pl, t.Vertex(i), t.Vertex(n - 1));
      }
    }
  }

  /**
   * Every offered point is a corner of t or lies on one of its edges, so it
   * stays behind any other plane all three corners are behind.
   */
  lemma {:induction false} OfferedNotAhead(t: Polygon, pl: Plane, other: Plane)
    requires !GetSide(other, t.v0) && !GetSide(other, t.v1) && !GetSide(other, t.v2)
    ensures forall q :: q in Offered(t, pl) ==> !GetSide(other, q)
  {
    assert t.Vertex(0) == t.v0 && t.Vertex(1) == t.v1 && t.Vertex(2) == t.v2;
    forall i, n | 0 <= i < 3 && 0 <= n <= 3 && GetSide(pl, t.Vertex(i))
      ensures forall q :: q in CutsToward(t, pl, i, n) ==> !GetSide(other, q)
    {
      CutsTowardNotAhead(t, pl, other, i, n);
    }
    OfferedUnfold(t, pl);
  }

  lemma {:induction false} CutsTowardNotAhead(t: Polygon, pl: Plane, other: Plane, i: int, n: int)
    requires 0 <= i < 3 && 0 <= n <= 3 && GetSide(pl, t.Vertex(i))
    requires forall j :: 0 <= j < 3 ==> !GetSide(other, t.Vertex(j))
    ensures forall q :: q in CutsToward(t, pl, i, n) ==> !GetSide(other, q)
  {
    if n > 0 {
      CutsTowardNotAhead(t, pl, other, i, n - 1);
      if n - 1 != i && !GetSide(pl, t.Vertex(n - 1)) {
        CutEdgeNotAhead(pl, other, t.Vertex(i), t.Vertex(n - 1));
      }
    }
  }

  /* ---------------------------------------------------------------------- */
  /* DevideFace                                                              */
  /* ---------------------------------------------------------------------- */

  /** The probe point a thousandth of the way back from p towards the apex */
  function Probe(apex: Vec3, p: Vec3): Vec3
  {
    Add(apex, Scale(Sub(p, apex), 0.999))
  }

  /**
   * The search loop of `DevideFace` from index i on, with `vec1` found so
   * far: the first two of the first three slots whose probe from the fourth
   * slot falls outside the first triangle; zero where none was found.
   */
  function Diagonal(s: seq<Vec3>, first: Polygon, i: int, vec1: Vec3): (Vec3, Vec3)
    requires |s| == 4 && 0 <= i <= 3
    decreases 3 - i
  {
    if i == 3 then (vec1, Zero)
    else if IsInsidePolygon(first, Probe(s[3], s[i])) then Diagonal(s, first, i + 1, vec1)
    else if vec1 == Zero then Diagonal(s, first, i + 1, s[i])
    else (vec1, s[i])
  }

  /**
   * `DevideFace`: nothing for an empty buffer; the first three slots as one
   * triangle facing `direction`; and, when the fourth slot is taken and two
   * of the other slots look past the first triangle from it, a second
   * triangle through the fourth slot and those two.
   */
  function DevideFaceSpec(s: seq<Vec3>, direction: Vec3): (r: seq<Polygon>)
    requires |s| == 4
    ensures |r| <= 2
    ensures r == [] <==> s[0] == Zero
  {
    if s[0] == Zero then []
    else
      var first := Oriented(s[0], s[1], s[2], direction);
      if s[3] == Zero then [first]
      else
        var d := Diagonal(s, first, 0, Zero);
        if d.1 == Zero then [first] else [first, Oriented(s[3], d.0, d.1, direction)]
  }

  /** The slots among the first three whose probe falls outside `first` */
  function OutsideFrom(s: seq<Vec3>, first: Polygon, i: int): seq<Vec3>
    requires |s| == 4 && 0 <= i <= 3
    decreases 3 - i
  {
    if i == 3 then []
    else if IsInsidePolygon(first, Probe(s[3], s[i])) then OutsideFrom(s, first, i + 1)
    else [s[i]] + OutsideFrom(s, first, i + 1)
  }

  /**
   * With no empty slot, the search loop finds exactly the first two slots
   * whose probe falls outside, and finds a second one only if there are two.
   */
  lemma {:induction false} DiagonalIsOutside(s: seq<Vec3>, first: Polygon, i: int, vec1: Vec3)
    requires |s| == 4 && 0 <= i <= 3 && NoneZero(s)
    ensures var d := Diagonal(s, first, i, vec1);
            var o := (if vec1 == Zero then [] else [vec1]) + OutsideFrom(s, first, i);
            (d.1 != Zero <==> |o| >= 2)
            && (|o| >= 2 ==> d == (o[0], o[1]))
            && (|o| < 2 ==> d.0 == (if |o| == 1 then o[0] else Zero))
    decreases 3 - i
  {
    if i < 3 {
      if IsInsidePolygon(first, Probe(s[3], s[i])) {
        DiagonalIsOutside(s, first, i + 1, vec1);
      } else if vec1 == Zero {
        DiagonalIsOutside(s, first, i + 1, s[i]);
      }
    }
  }

  /**
   * A full buffer becomes two triangles exactly when at least two of its
   * first three slots, probed from the fourth, fall outside the first
   * triangle; the second triangle joins the fourth slot to the first two
   * such slots.
   */
  lemma {:induction false} DevideFaceTwoTriangles(s: seq<Vec3>, direction: Vec3)
    requires |s| == 4 && NoneZero(s)
    ensures var first := Oriented(s[0], s[1], s[2], direction);
            var o := OutsideFrom(s, first, 0);
            var r := DevideFaceSpec(s, direction);
            r[0] == first
            && (|r| == 2 <==> |o| >= 2)
            && (|o| >= 2 ==> r[1] == Oriented(s[3], o[0], o[1], direction))
  {
    var first := Oriented(s[0], s[1], s[2], direction);
    DiagonalIsOutside(s, first, 0, Zero);
  }

  /** A buffer with its fourth slot empty gives exactly its first triangle */
  lemma DevideFaceOneTriangle(s: seq<Vec3>, direction: Vec3)
    requires |s| == 4 && s[0] != Zero && s[3] == Zero
    ensures DevideFaceSpec(s, direction) == [Oriented(s[0], s[1], s[2], direction)]
  {
  }

  lemma {:induction false} DiagonalFrom(s: seq<Vec3>, first: Polygon, i: int, vec1: Vec3)
    requires |s| == 4 && 0 <= i <= 3
    requires vec1 == Zero || vec1 in s
    ensures var d := Diagonal(s, first, i, vec1);
            (d.0 == Zero || d.0 in s) && (d.1 == Zero || d.1 in s)
            && (d.1 != Zero ==> d.0 != Zero)
    decreases 3 - i
  {
    if i < 3 {
      if IsInsidePolygon(first, Probe(s[3], s[i])) {
        DiagonalFrom(s, first, i + 1, vec1);
      } else if vec1 == Zero {
        DiagonalFrom(s, first, i + 1, s[i]);
      }
    }
  }

  /** Every corner of every triangle `DevideFace` builds is one of the slots */
  lemma {:induction false} DevideFaceVertices(s: seq<Vec3>, direction: Vec3)
    requires |s| == 4
    ensures forall p, q :: p in DevideFaceSpec(s, direction) && q in p.Vertices() ==> q in s
  {
    if s[0] != Zero && s[3] != Zero {
      var first := Oriented(s[0], s[1], s[2], direction);
      DiagonalFrom(s, first, 0, Zero);
    }
  }

  /**
   * The second triangle is built from taken slots only, so a corner at the
   * origin can only come from one of the first three slots.
   */
  lemma {:induction false} DevideFaceZeroCorner(s: seq<Vec3>, direction: Vec3)
    requires |s| == 4
    ensures forall p :: p in DevideFaceSpec(s, direction) && Zero in p.Vertices() ==> Zero in s[..3]
  {
    if s[0] != Zero {
      var first := Oriented(s[0], s[1], s[2], direction);
      assert first.Vertices() == [s[0], s[1], s[2]] || first.Vertices() == [s[2], s[1], s[0]];
      assert s[..3] == [s[0], s[1], s[2]];
      if s[3] != Zero {
        DiagonalFrom(s, first, 0, Zero);
      }
    }
  }

  /** No triangle `DevideFace` builds faces away from a non-zero `direction` */
  lemma {:induction false} DevideFaceFacesDirection(s: seq<Vec3>, direction: Vec3)
    requires |s| == 4 && direction != Zero
    ensures forall p :: p in DevideFaceSpec(s, direction) ==> !Opposed(Direction(p), direction)
  {
    if s[0] != Zero {
      OrientedFacesDirection(s[0], s[1], s[2], direction);
      if s[3] != Zero {
        var d := Diagonal(s, Oriented(s[0], s[1], s[2], direction), 0, Zero);
        OrientedFacesDirection(s[3], d.0, d.1, direction);
      }
    }
  }

  /**
   * `DevideFace` on the buffer: reads the four slots and builds the
   * triangles, as `DevideFaceSpec` describes.
   */
  method DevideFace(vertices: array<Vec3>, direction: Vec3) returns (polygons: seq<Polygon>)
    requires vertices.Length == 4
    ensures polygons == DevideFaceSpec(vertices[..], direction)
  {
    if vertices[0] == Zero {
      return [];
    }
    var polygon1 := Oriented(vertices[0], vertices[1], vertices[2], direction);
    if vertices[3] == Zero {
      return [polygon1];
    }
    ghost var s := vertices[..];
    var vec0 := vertices[3];
    var vec1 := Zero;
    var vec2 := vec1;
    var i := 0;
    while i < 3
      invariant 0 <= i <= 3
      invariant vec2 == Zero
      invariant Diagonal(s, polygon1, i, vec1) == Diagonal(s, polygon1, 0, Zero)
    {
      var point := Probe(vec0, vertices[i]);
      if IsInsidePolygon(polygon1, point) {
        i := i + 1;
        continue;
      }
      if vec1 == Zero {
        vec1 := vertices[i];
      } else {
        vec2 := vertices[i];
        break;
      }
      i := i + 1;
    }
    if vec2 == Zero {
      return [polygon1];
    }
    var polygon2 := Oriented(vec0, vec1, vec2, direction);
    return [polygon1, polygon2];
  }

  /* ---------------------------------------------------------------------- */
  /* Cut                                                                     */
  /* ---------------------------------------------------------------------- */

  /** What `Cut` returns for triangle t and plane pl */
  function CutSpec(t: Polygon, pl: Plane): seq<Polygon>
  {
    DevideFaceSpec(Slots(t, pl), Direction(t))
  }

  /** The inner `for j` loop: store p in the first empty slot, if any */
  method Store(vertices: array<Vec3>, p: Vec3)
    modifies vertices
    ensures vertices[..] == Place(old(vertices[..]), p)
  {
    ghost var b := vertices[..];
    var j := 0;
    while j < vertices.Length
      invariant 0 <= j <= vertices.Length
      invariant vertices[..] == b
      invariant forall k :: 0 <= k < j ==> b[k] != Zero
    {
      if vertices[j] == Zero {
        vertices[j] := p;
        assert FirstEmpty(b) == j;
        return;
      }
      j := j + 1;
    }
    assert FirstEmpty(b) == |b|;
  }

  /**
   * The inner `for v` loop of `Cut` for a discarded vertex i: offer the cut
   * point on each edge from vertex i to a kept vertex.
   */
  method StoreCuts(vertices: array<Vec3>, t: Polygon, plane: Plane, i: int)
    requires 0 <= i < 3
    modifies vertices
    ensures vertices[..] == PlaceAll(old(vertices[..]), CutsToward(t, plane, i, 3))
  {
    ghost var b := vertices[..];
    var v := 0;
    while v < 3
      invariant 0 <= v <= 3
      invariant vertices[..] == PlaceAll(b, CutsToward(t, plane, i, v))
    {
      if v == i || GetSide(plane, t.Vertex(v)) {
        assert CutsToward(t, plane, i, v + 1) == CutsToward(t, plane, i, v) + [];
        v := v + 1;
        continue;
      }
      var cut := CutEdge(plane, t.Vertex(i), t.Vertex(v));
      Store(vertices, cut);
      ghost var cs := CutsToward(t, plane, i, v + 1);
      assert cs == CutsToward(t, plane, i, v) + [cut];
      assert cs[..|cs| - 1] == CutsToward(t, plane, i, v);
      v := v + 1;
    }
  }

  /** `Polygon.Cut` */
  method Cut(t: Polygon, plane: Plane) returns (polygons: seq<Polygon>)
    ensures polygons == CutSpec(t, plane)
  {
    var vertices := new Vec3[4](_ => Zero);
    assert vertices[..] == EmptySlots;
    var i := 0;
    while i < 3
      invariant 0 <= i <= 3
      invariant vertices[..] == PlaceAll(EmptySlots, OfferedUpTo(t, plane, i))
    {
      PlaceAllAppend(EmptySlots, OfferedUpTo(t, plane, i), OfferedBy(t, plane, i));
      if GetSide(plane, t.Vertex(i)) {
        StoreCuts(vertices, t, plane, i);
      } else {
        Store(vertices, t.Vertex(i));
        assert [t.Vertex(i)][..0] == [];
        if vertices[3] != Zero {
          RestIgnored(t, plane, i + 1);
          break;
        }
      }
      i := i + 1;
    }
    polygons := DevideFace(vertices, Direction(t));
  }

  /** Once the buffer is full after n iterations, the remaining ones change nothing */
  lemma {:induction false} RestIgnored(t: Polygon, pl: Plane, n: int)
    requires 0 <= n <= 3
    requires PlaceAll(EmptySlots, OfferedUpTo(t, pl, n))[3] != Zero
    ensures Slots(t, pl) == PlaceAll(EmptySlots, OfferedUpTo(t, pl, n))
  {
    PlaceAllPrefixFilled(EmptySlots, OfferedUpTo(t, pl, n));
    LastTakenIsFull(PlaceAll(EmptySlots, OfferedUpTo(t, pl, n)));
    var rest := OfferedFrom(t, pl, n);
    OfferedSplit(t, pl, n);
    PlaceAllAppend(EmptySlots, OfferedUpTo(t, pl, n), rest);
    PlaceAllFull(PlaceAll(EmptySlots, OfferedUpTo(t, pl, n)), rest);
  }

  /** What the iterations from n on offer */
  function OfferedFrom(t: Polygon, pl: Plane, n: int): seq<Vec3>
    requires 0 <= n <= 3
    decreases 3 - n
  {
    if n == 3 then [] else OfferedBy(t, pl, n) + OfferedFrom(t, pl, n + 1)
  }

  lemma {:induction false} OfferedSplit(t: Polygon, pl: Plane, n: int)
    requires 0 <= n <= 3
    ensures Offered(t, pl) == OfferedUpTo(t, pl, n) + OfferedFrom(t, pl, n)
    decreases 3 - n
  {
    if n < 3 {
      OfferedSplit(t, pl, n + 1);
      assert OfferedUpTo(t, pl, n + 1) == OfferedUpTo(t, pl, n) + OfferedBy(t, pl, n);
    }
  }
}

module PolygonCutProperties {
  import opened Geometry
  import opened Polygons
  import opened PolygonCut

  /**
   * Every corner of every piece `Cut` returns is one of the points offered to
   * the buffer. An empty slot among the first three can only stay empty
   * under a taken first slot when the origin itself was offered, since the
   * buffer keeps every other point while it has room.
   */
  lemma {:induction false} CutCornersOffered(t: Polygon, pl: Plane)
    ensures forall p, q :: p in CutSpec(t, pl) && q in p.Vertices() ==> q in Offered(t, pl)
  {
    var o, s := Offered(t, pl), Slots(t, pl);
    DevideFaceVertices(s, Direction(t));
    DevideFaceZeroCorner(s, Direction(t));
    forall q | q in s && q != Zero
      ensures q in o
    {
      PlaceAllFrom(EmptySlots, o, q);
    }
    if Zero !in o && Zero in s[..3] {
      assert NoneZero(o);
      SlotsHoldOffered(t, pl);
      OfferedCount(t, pl);
      if |o| == 0 {
        assert s[0] == Zero;
        assert CutSpec(t, pl) == [];
      }
    }
  }

  /**
   * Every corner of every piece `Cut` returns lies on the kept side of the
   * plane or on the plane.
   */
  lemma {:induction false} CutKeepsSide(t: Polygon, pl: Plane)
    ensures forall p, q :: p in CutSpec(t, pl) && q in p.Vertices() ==> !GetSide(pl, q)
  {
    CutCornersOffered(t, pl);
    OfferedKept(t, pl);
  }

  /** A piece stays behind any other plane the whole triangle was behind */
  lemma {:induction false} CutStaysBehind(t: Polygon, pl: Plane, other: Plane)
    requires !GetSide(other, t.v0) && !GetSide(other, t.v1) && !GetSide(other, t.v2)
    ensures forall p, q :: p in CutSpec(t, pl) && q in p.Vertices() ==> !GetSide(other, q)
  {
    CutCornersOffered(t, pl);
    OfferedNotAhead(t, pl, other);
  }

  /** No piece faces away from the triangle it was cut from */
  lemma {:induction false} CutFacesDirection(t: Polygon, pl: Plane)
    requires Direction(t) != Zero
    ensures forall p :: p in CutSpec(t, pl) ==> !Opposed(Direction(p), Direction(t))
  {
    DevideFaceFacesDirection(Slots(t, pl), Direction(t));
  }

  /** A triangle entirely on the discarded side leaves nothing */
  lemma {:induction false} CutAllDiscarded(t: Polygon, pl: Plane)
    requires GetSide(pl, t.v0) && GetSide(pl, t.v1) && GetSide(pl, t.v2)
    ensures CutSpec(t, pl) == []
  {
    OfferedCount(t, pl);
    assert Offered(t, pl) == [];
  }

  /** While no offered point is the zero vector, the buffer holds them all */
  lemma {:induction false} SlotsHoldOffered(t: Polygon, pl: Plane)
    requires NoneZero(Offered(t, pl))
    ensures |Offered(t, pl)| <= 4
    ensures Slots(t, pl) == Offered(t, pl) + Zeros(4 - |Offered(t, pl)|)
  {
    OfferedCount(t, pl);
    PlaceAllExact(Offered(t, pl));
  }

  /**
   * A proper triangle with no corner on the discarded side and none at the
   * origin comes back unchanged.
   */
  lemma {:induction false} CutAllKept(t: Polygon, pl: Plane)
    requires !GetSide(pl, t.v0) && !GetSide(pl, t.v1) && !GetSide(pl, t.v2)
    requires t.v0 != Zero && t.v1 != Zero && t.v2 != Zero
    requires Direction(t) != Zero
    ensures CutSpec(t, pl) == [t]
  {
    OfferedUnfold(t, pl);
    assert Offered(t, pl) == [t.v0, t.v1, t.v2];
    SlotsHoldOffered(t, pl);
    var s := Slots(t, pl);
    assert s == [t.v0, t.v1, t.v2, Zero];
    DevideFaceOneTriangle(s, Direction(t));
    var n := Direction(t);
    CrossSelf(n);
    DotSelfNonNegative(n);
    assert !Opposed(n, n);
  }

  /**
   * With two corners discarded the kept corner and the two cut points form
   * exactly one triangle (when none of them is the origin).
   */
  lemma {:induction false} CutTwoDiscarded(t: Polygon, pl: Plane)
    requires Discarded(t, pl) == 2 && NoneZero(Offered(t, pl))
    ensures var o := Offered(t, pl);
            |o| == 3 && CutSpec(t, pl) == [Oriented(o[0], o[1], o[2], Direction(t))]
  {
    OfferedCount(t, pl);
    SlotsHoldOffered(t, pl);
    var s := Slots(t, pl);
    assert s[3] == Zero && s[0] != Zero;
    DevideFaceOneTriangle(s, Direction(t));
  }

  /**
   * With one corner discarded the four offered points fill the buffer: the
   * first three make one triangle, and a second one is added exactly when
   * two of the first three points, seen from the fourth, lie outside it.
   */
  lemma {:induction false} CutOneDiscarded(t: Polygon, pl: Plane)
    requires Discarded(t, pl) == 1 && NoneZero(Offered(t, pl))
    ensures |Offered(t, pl)| == 4
    ensures var o := Offered(t, pl);
            var first := Oriented(o[0], o[1], o[2], Direction(t));
            var outside := OutsideFrom(o, first, 0);
            CutSpec(t, pl)[0] == first
            && (|CutSpec(t, pl)| == 2 <==> |outside| >= 2)
            && (|outside| >= 2 ==> CutSpec(t, pl)[1] == Oriented(o[3], outside[0], outside[1], Direction(t)))
  {
    OfferedCount(t, pl);
    SlotsHoldOffered(t, pl);
    assert Slots(t, pl) == Offered(t, pl);
    DevideFaceTwoTriangles(Offered(t, pl), Direction(t));
  }
}

/**
 * A worked case of the empty-slot marker meeting a real point: the plane
 * y = 0 (normal (0, 1, 0)) and the triangle (0, 1, 0), (0, -1, 0),
 * (1, -1, 0), whose edge from the discarded corner (0, 1, 0) to the kept
 * corner (0, -1, 0) crosses the plane at the origin.
 */
module OriginCollision {
  import opened Geometry
  import opened Polygons
  import opened PolygonCut

  predicate Sample(pl: Plane, t: Polygon)
  {
    pl == Plane(Vec3(0.0, 1.0, 0.0), 0.0)
    && t == Polygon(Vec3(0.0, 1.0, 0.0), Vec3(0.0, -1.0, 0.0), Vec3(1.0, -1.0, 0.0))
  }

  lemma SampleSides(pl: Plane, t: Polygon)
    requires Sample(pl, t)
    ensures GetSide(pl, t.v0) && !GetSide(pl, t.v1) && !GetSide(pl, t.v2)
  {
  }

  /** Coordinates of a point on the line through a and b */
  lemma LerpCoordinates(a: Vec3, b: Vec3, t: real)
    ensures a.x == b.x ==> Lerp(a, b, t).x == a.x
    ensures a.z == b.z ==> Lerp(a, b, t).z == a.z
    ensures b.x - a.x == 1.0 ==> Lerp(a, b, t).x == a.x + t
    ensures b.y - a.y == -2.0 ==> Lerp(a, b, t).y == a.y - 2.0 * t
  {
  }

  lemma HeightOnGround(pl: Plane, p: Vec3)
    requires pl == Plane(Vec3(0.0, 1.0, 0.0), 0.0) && SignedDistance(pl, p) == 0.0
    ensures p.y == 0.0
  {
  }

  /** On the plane y = 0 and on the edge x = z = 0: the origin */
  lemma {:induction false} CutToOrigin(pl: Plane, t: Polygon)
    requires Sample(pl, t)
    ensures CutEdge(pl, t.v0, t.v1) == Zero
  {
    SampleSides(pl, t);
    CutEdgeOnPlane(pl, t.v0, t.v1);
    HeightOnGround(pl, CutEdge(pl, t.v0, t.v1));
    LerpCoordinates(t.v0, t.v1, CutParam(pl, t.v0, t.v1));
  }

  /** On the plane y = 0 and on the edge from (0, 1, 0) to (1, -1, 0) */
  lemma {:induction false} CutToHalf(pl: Plane, t: Polygon)
    requires Sample(pl, t)
    ensures CutEdge(pl, t.v0, t.v2) == Vec3(0.5, 0.0, 0.0)
  {
    SampleSides(pl, t);
    CutEdgeOnPlane(pl, t.v0, t.v2);
    var c := CutEdge(pl, t.v0, t.v2);
    var k := CutParam(pl, t.v0, t.v2);
    HeightOnGround(pl, c);
    LerpCoordinates(t.v0, t.v2, k);
  }

  lemma {:induction false} SampleOffered(pl: Plane, t: Polygon)
    requires Sample(pl, t)
    ensures Offered(t, pl) == [Zero, Vec3(0.5, 0.0, 0.0), t.v1, t.v2]
  {
    SampleSides(pl, t);
    CutToOrigin(pl, t);
    CutToHalf(pl, t);
    OfferedFirstDiscarded(t, pl);
  }

  /**
   * When the first offered point is the zero vector and three non-zero
   * points follow, the buffer keeps only those three.
   */
  lemma {:induction false} SlotsLoseLeadingZero(t: Polygon, pl: Plane, a: Vec3, b: Vec3, c: Vec3)
    requires Offered(t, pl) == [Zero, a, b, c]
    requires a != Zero && b != Zero && c != Zero
    ensures Slots(t, pl) == [a, b, c, Zero]
  {
    var rest := [a, b, c];
    assert Offered(t, pl) == [Zero] + rest;
    PlaceAllSkipsZero(rest);
    assert Zeros(1) == [Zero];
  }

  /**
   * Only the first corner is discarded (`SampleSides`), so four points are
   * offered (`SampleOffered`), but the cut point at the origin is taken for
   * an empty slot: `Cut` returns a single triangle on (0.5, 0, 0),
   * (0, -1, 0) and (1, -1, 0), and the part of the kept region between it
   * and the origin is lost.
   */
  lemma {:induction false} CutLosesOriginPoint(pl: Plane, t: Polygon)
    requires Sample(pl, t)
    ensures CutSpec(t, pl) == [Oriented(Vec3(0.5, 0.0, 0.0), t.v1, t.v2, Direction(t))]
  {
    SampleOffered(pl, t);
    assert t.v1 != Zero && t.v2 != Zero;
    SampleCut(pl, t);
  }

  lemma {:induction false} SampleCut(pl: Plane, t: Polygon)
    requires Offered(t, pl) == [Zero, Vec3(0.5, 0.0, 0.0), t.v1, t.v2]
    requires t.v1 != Zero && t.v2 != Zero
    ensures CutSpec(t, pl) == [Oriented(Vec3(0.5, 0.0, 0.0), t.v1, t.v2, Direction(t))]
  {
    SlotsLoseLeadingZero(t, pl, Vec3(0.5, 0.0, 0.0), t.v1, t.v2);
    DevideFaceOneTriangle(Slots(t, pl), Direction(t));
  }
}
