/**
 * The last two passes over the finished vertex list: `DecalMesh.PushMesh`
 * (move every vertex along its normal by the surface distance) and
 * `DecalMesh.CreateUVs` (project every vertex onto the volume's x/z
 * footprint and map the footprint into a texture rectangle).
 */
module Projection {
  import opened Geometry

  /* ---------------------------------------------------------------------- */
  /* PushMesh                                                                */
  /* ---------------------------------------------------------------------- */

  /** A vertex moved by `distance` along its normal */
  function Pushed(v: Vec3, normal: Vec3, distance: real): Vec3
  {
    Add(v, Scale(normal, distance))
  }

  /**
   * `PushMesh`: a copy of the vertex list (Unity's `mesh.vertices` getter
   * returns a copy), each vertex moved along the normal of the same index.
   * Unity keeps one normal per vertex; the loop reads normals up to the
   * vertex count.
   */
  method PushMesh(vertices: seq<Vec3>, normals: seq<Vec3>, distance: real) returns (pushed: array<Vec3>)
    requires |vertices| <= |normals|
    ensures fresh(pushed) && pushed.Length == |vertices|
    ensures forall i :: 0 <= i < |vertices| ==> pushed[i] == Pushed(vertices[i], normals[i], distance)
  {
    pushed := new Vec3[|vertices|](i requires 0 <= i < |vertices| => vertices[i]);
    var i := 0;
    while i < pushed.Length
      invariant 0 <= i <= pushed.Length
      invariant forall k :: 0 <= k < i ==> pushed[k] == Pushed(vertices[k], normals[k], distance)
      invariant forall k :: i <= k < pushed.Length ==> pushed[k] == vertices[k]
    {
      pushed[i] := Add(pushed[i], Scale(normals[i], distance));
      i := i + 1;
    }
  }

  /** Pushing back by the opposite distance restores the vertex */
  lemma PushedUndo(v: Vec3, normal: Vec3, distance: real)
    ensures Pushed(Pushed(v, normal, distance), normal, -distance) == v
  {
  }

  /** Two pushes along the same normal add up */
  lemma PushedAdds(v: Vec3, normal: Vec3, a: real, b: real)
    ensures Pushed(Pushed(v, normal, a), normal, b) == Pushed(v, normal, a + b)
  {
    assert normal.x * a + normal.x * b == normal.x * (a + b);
    assert normal.y * a + normal.y * b == normal.y * (a + b);
    assert normal.z * a + normal.z * b == normal.z * (a + b);
  }

  /** A vertex moves exactly when it has a non-zero normal and the distance is not zero */
  lemma PushedMoves(v: Vec3, normal: Vec3, distance: real)
    ensures Pushed(v, normal, distance) == v <==> normal == Zero || distance == 0.0
  {
    if Pushed(v, normal, distance) == v && distance != 0.0 {
      assert normal.x * distance == 0.0 && normal.y * distance == 0.0 && normal.z * distance == 0.0;
    }
  }

  /* ---------------------------------------------------------------------- */
  /* CreateUVs                                                               */
  /* ---------------------------------------------------------------------- */

  /** Unity's `Rect`: a corner and an extent */
  datatype Rect = Rect(x: real, y: real, width: real, height: real)

  /** A sprite: its rectangle in pixels and the size of its texture in pixels */
  datatype Sprite = Sprite(rect: Rect, textureWidth: int, textureHeight: int)

  datatype Option<T> = None | Some(value: T)

  /** The decal volume's box, in the volume's local frame: its centre and its full extent */
  datatype Volume = Volume(origin: Vec3, size: Vec3)

  /** The rectangle used when no sprite is given */
  const DefaultRect: Rect := Rect(0.0, 0.0, 0.5, 0.5)

  predicate ValidSprite(sprite: Option<Sprite>)
  {
    sprite.Some? ==> sprite.value.textureWidth > 0 && sprite.value.textureHeight > 0
  }

  /** The rectangle `CreateUVs` maps into: the sprite's, in texture units, or the default one */
  function UVRect(sprite: Option<Sprite>): (r: Rect)
    requires ValidSprite(sprite)
    ensures sprite.None? ==> r == DefaultRect
  {
    match sprite
    case None => DefaultRect
    case Some(s) =>
      var w, h := s.textureWidth as real, s.textureHeight as real;
      Rect(s.rect.x / w, s.rect.y / h, s.rect.width / w, s.rect.height / h)
  }

  /** A sprite's rectangle is taken in texture units: pixels over the texture's size */
  lemma SpriteRectInTextureUnits(s: Sprite)
    requires s.textureWidth > 0 && s.textureHeight > 0
    ensures var r, w, h := UVRect(Some(s)), s.textureWidth as real, s.textureHeight as real;
            && r.x * w == s.rect.x && r.width * w == s.rect.width
            && r.y * h == s.rect.y && r.height * h == s.rect.height
  {
  }

  /** The vertex's position across the volume's footprint: (0, 0) at one corner, (1, 1) at the opposite one */
  function Footprint(vertex: Vec3, volume: Volume): Vec2
    requires volume.size.x != 0.0 && volume.size.z != 0.0
  {
    var v := Sub(vertex, volume.origin);
    Vec2(v.x / volume.size.x + 0.5, v.z / volume.size.z + 0.5)
  }

  /** A footprint position placed in the rectangle as `CreateUVs` does: scaled by its doubled size, moved by its doubled corner */
  function PlaceInRect(uv: Vec2, rect: Rect): Vec2
  {
    Vec2(uv.x * (rect.width * 2.0) + rect.x * 2.0, uv.y * (rect.height * 2.0) + rect.y * 2.0)
  }

  /** The UV of one vertex, as `CreateUVs` computes it */
  function ProjectUV(vertex: Vec3, volume: Volume, rect: Rect): Vec2
    requires volume.size.x != 0.0 && volume.size.z != 0.0
  {
    PlaceInRect(Footprint(vertex, volume), rect)
  }

  /** The first half of `CreateUVs`: the sprite's rectangle, divided by its texture's size, or the default one */
  method SpriteRect(sprite: Option<Sprite>) returns (rect: Rect)
    requires ValidSprite(sprite)
    ensures rect == UVRect(sprite)
  {
    rect := if sprite.Some? then sprite.value.rect else DefaultRect;
    if sprite.Some? {
      var w, h := sprite.value.textureWidth as real, sprite.value.textureHeight as real;
      rect := rect.(x := rect.x / w);
      rect := rect.(y := rect.y / h);
      rect := rect.(width := rect.width / w);
      rect := rect.(height := rect.height / h);
    }
  }

  /** The body of the `CreateUVs` loop: one vertex's UV, computed step by step */
  method VertexUV(vertex: Vec3, volume: Volume, rect: Rect) returns (uv: Vec2)
    requires volume.size.x != 0.0 && volume.size.z != 0.0
    ensures uv == ProjectUV(vertex, volume, rect)
  {
    var v := Sub(vertex, volume.origin);
    v := v.(x := v.x / volume.size.x);
    v := v.(z := v.z / volume.size.z);
    uv := Vec2(v.x + 0.5, v.z + 0.5);
    assert uv == Footprint(vertex, volume);
    uv := uv.(x := uv.x * (rect.width * 2.0));
    uv := uv.(y := uv.y * (rect.height * 2.0));
    uv := uv.(x := uv.x + rect.x * 2.0);
    uv := uv.(y := uv.y + rect.y * 2.0);
  }

  /** `CreateUVs`: one UV per vertex, in order */
  method CreateUVs(vertices: seq<Vec3>, volume: Volume, sprite: Option<Sprite>) returns (uvs: array<Vec2>)
    requires |vertices| > 0 ==> volume.size.x != 0.0 && volume.size.z != 0.0
    requires ValidSprite(sprite)
    ensures fresh(uvs) && uvs.Length == |vertices|
    ensures forall i :: 0 <= i < |vertices| ==> uvs[i] == ProjectUV(vertices[i], volume, UVRect(sprite))
  {
    uvs := new Vec2[|vertices|](_ => Vec2(0.0, 0.0));
    var rect := SpriteRect(sprite);
    if |vertices| > 0 {
      FillUVs(uvs, vertices, volume, rect);
    }
  }

  /**
   * The loop of `CreateUVs`, which only runs, and only divides by the
   * volume's size, when there is a vertex.
   */
  method FillUVs(uvs: array<Vec2>, vertices: seq<Vec3>, volume: Volume, rect: Rect)
    requires uvs.Length == |vertices|
    requires volume.size.x != 0.0 && volume.size.z != 0.0
    modifies uvs
    ensures forall i :: 0 <= i < |vertices| ==> uvs[i] == ProjectUV(vertices[i], volume, rect)
  {
    var i := 0;
    while i < |vertices|
      invariant 0 <= i <= |vertices|
      invariant forall k :: 0 <= k < i ==> uvs[k] == ProjectUV(vertices[k], volume, rect)
    {
      var uv := VertexUV(vertices[i], volume, rect);
      uvs[i] := uv;
      i := i + 1;
    }
  }

  /** The vertex at the volume's centre lands in the middle of the doubled rectangle, (0.5, 0.5) by default */
  lemma CentreUV(volume: Volume, rect: Rect)
    requires volume.size.x != 0.0 && volume.size.z != 0.0
    ensures ProjectUV(volume.origin, volume, rect) == Vec2(rect.x * 2.0 + rect.width, rect.y * 2.0 + rect.height)
    ensures ProjectUV(volume.origin, volume, DefaultRect) == Vec2(0.5, 0.5)
  {
    assert Sub(volume.origin, volume.origin) == Zero;
  }

  /** Without a sprite the UV is the footprint position itself */
  lemma DefaultIsFootprint(vertex: Vec3, volume: Volume)
    requires volume.size.x != 0.0 && volume.size.z != 0.0
    ensures ProjectUV(vertex, volume, UVRect(None)) == Footprint(vertex, volume)
  {
  }

  /** The footprint runs from (0, 0) at the box's lower corner to (1, 1) at its upper corner */
  lemma FootprintCorners(volume: Volume)
    requires volume.size.x != 0.0 && volume.size.z != 0.0
    ensures var half := Scale(volume.size, 0.5);
            && Footprint(Sub(volume.origin, half), volume) == Vec2(0.0, 0.0)
            && Footprint(Add(volume.origin, half), volume) == Vec2(1.0, 1.0)
  {
    var half := Scale(volume.size, 0.5);
    assert Sub(Sub(volume.origin, half), volume.origin) == Neg(half);
    assert Sub(Add(volume.origin, half), volume.origin) == half;
    Halves(volume.size.x);
    Halves(volume.size.z);
  }

  lemma Halves(s: real)
    requires s != 0.0
    ensures (s * 0.5) / s == 0.5 && -(s * 0.5) / s == -0.5
  {
  }

  /** The UV ignores the vertex's height above the footprint */
  lemma ProjectUVIgnoresHeight(vertex: Vec3, volume: Volume, rect: Rect, y: real)
    requires volume.size.x != 0.0 && volume.size.z != 0.0
    ensures ProjectUV(vertex.(y := y), volume, rect) == ProjectUV(vertex, volume, rect)
  {
    assert Footprint(vertex.(y := y), volume) == Footprint(vertex, volume);
  }

  /** The straight-line blend of two vertices by t */
  function Mix(a: real, b: real, t: real): real { a + (b - a) * t }

  /** The footprint position of a blend of two points is the same blend of their footprint positions */
  lemma {:induction false} FootprintAffine(a: Vec3, b: Vec3, t: real, volume: Volume)
    requires volume.size.x != 0.0 && volume.size.z != 0.0
    ensures var fa, fb := Footprint(a, volume), Footprint(b, volume);
            Footprint(Lerp(a, b, t), volume) == Vec2(Mix(fa.x, fb.x, t), Mix(fa.y, fb.y, t))
  {
    var o, sz := volume.origin, volume.size;
    MixNormalise(a.x, b.x, o.x, t, sz.x);
    MixNormalise(a.z, b.z, o.z, t, sz.z);
    assert Lerp(a, b, t).x == Mix(a.x, b.x, t) && Lerp(a, b, t).z == Mix(a.z, b.z, t);
  }

  lemma MixNormalise(u: real, w: real, o: real, t: real, s: real)
    requires s != 0.0
    ensures (Mix(u, w, t) - o) / s + 0.5 == Mix((u - o) / s + 0.5, (w - o) / s + 0.5, t)
  {
    assert (Mix(u, w, t) - o) / s == (u - o) / s + ((w - o) / s - (u - o) / s) * t;
  }

  /** Placing in a rectangle commutes with blending */
  lemma {:induction false} PlaceAffine(p: Vec2, q: Vec2, t: real, rect: Rect)
    ensures var pp, pq := PlaceInRect(p, rect), PlaceInRect(q, rect);
            PlaceInRect(Vec2(Mix(p.x, q.x, t), Mix(p.y, q.y, t)), rect) == Vec2(Mix(pp.x, pq.x, t), Mix(pp.y, pq.y, t))
  {
    MixScale(p.x, q.x, t, rect.width, rect.x);
    MixScale(p.y, q.y, t, rect.height, rect.y);
  }

  lemma MixScale(u: real, w: real, t: real, k: real, d: real)
    ensures Mix(u, w, t) * (k * 2.0) + d * 2.0 == Mix(u * (k * 2.0) + d * 2.0, w * (k * 2.0) + d * 2.0, t)
  {
  }

  /** The projection is affine: the UV of a point on a segment is the same blend of the end points' UVs */
  lemma {:induction false} ProjectUVAffine(a: Vec3, b: Vec3, t: real, volume: Volume, rect: Rect)
    requires volume.size.x != 0.0 && volume.size.z != 0.0
    ensures var ua, ub := ProjectUV(a, volume, rect), ProjectUV(b, volume, rect);
            ProjectUV(Lerp(a, b, t), volume, rect) == Vec2(Mix(ua.x, ub.x, t), Mix(ua.y, ub.y, t))
  {
    FootprintAffine(a, b, t, volume);
    PlaceAffine(Footprint(a, volume), Footprint(b, volume), t, rect);
  }

  /* ---------------------------------------------------------------------- */
  /* The doubled sprite rectangle                                            */
  /* ---------------------------------------------------------------------- */

  /** A sprite covering the whole of its w by h texture */
  function WholeTextureSprite(w: int, h: int): Sprite
  {
    Sprite(Rect(0.0, 0.0, w as real, h as real), w, h)
  }

  /**
   * As written, the sprite rectangle (already in texture units) is doubled
   * like the default half-unit rectangle: with a sprite covering its whole
   * texture, the far corner of the footprint gets UV (2, 2), outside the
   * texture, instead of (1, 1).
   */
  lemma {:induction false} WholeSpriteDoubled(volume: Volume, w: int, h: int)
    requires volume.size.x != 0.0 && volume.size.z != 0.0 && w > 0 && h > 0
    ensures ProjectUV(Add(volume.origin, Scale(volume.size, 0.5)), volume, UVRect(Some(WholeTextureSprite(w, h))))
         == Vec2(2.0, 2.0)
  {
    var rect := UVRect(Some(WholeTextureSprite(w, h)));
    assert rect == Rect(0.0, 0.0, 1.0, 1.0);
    FootprintCorners(volume);
  }

  /**
   * The mapping evidently intended: the footprint position placed in the
   * rectangle itself, so the footprint covers exactly the rectangle.
   */
  function CorrectedUV(vertex: Vec3, volume: Volume, rect: Rect): Vec2
    requires volume.size.x != 0.0 && volume.size.z != 0.0
  {
    var uv := Footprint(vertex, volume);
    Vec2(uv.x * rect.width + rect.x, uv.y * rect.height + rect.y)
  }

  /** The rectangle the corrected mapping uses: the sprite's in texture units, or the whole texture */
  function CorrectedRect(sprite: Option<Sprite>): Rect
    requires ValidSprite(sprite)
  {
    if sprite.None? then Rect(0.0, 0.0, 1.0, 1.0) else UVRect(sprite)
  }

  /** The corrected mapping sends the footprint's corners to the rectangle's corners */
  lemma {:induction false} CorrectedSpansRect(volume: Volume, rect: Rect)
    requires volume.size.x != 0.0 && volume.size.z != 0.0
    ensures var half := Scale(volume.size, 0.5);
            && CorrectedUV(Sub(volume.origin, half), volume, rect) == Vec2(rect.x, rect.y)
            && CorrectedUV(Add(volume.origin, half), volume, rect) == Vec2(rect.x + rect.width, rect.y + rect.height)
  {
    FootprintCorners(volume);
  }

  /** Without a sprite, the corrected mapping gives the UVs `CreateUVs` gives now */
  lemma CorrectedKeepsDefault(vertex: Vec3, volume: Volume)
    requires volume.size.x != 0.0 && volume.size.z != 0.0
    ensures CorrectedUV(vertex, volume, CorrectedRect(None)) == ProjectUV(vertex, volume, UVRect(None))
  {
  }

  /** With a sprite covering its whole texture, the corrected mapping keeps the footprint inside the texture */
  lemma {:induction false} WholeSpriteCorrected(volume: Volume, w: int, h: int)
    requires volume.size.x != 0.0 && volume.size.z != 0.0 && w > 0 && h > 0
    ensures CorrectedUV(Add(volume.origin, Scale(volume.size, 0.5)), volume, CorrectedRect(Some(WholeTextureSprite(w, h))))
         == Vec2(1.0, 1.0)
  {
    var rect := CorrectedRect(Some(WholeTextureSprite(w, h)));
    assert rect == Rect(0.0, 0.0, 1.0, 1.0);
    CorrectedSpansRect(volume, rect);
  }
}
