/**
 The geometry of `Program::blit`, over the reals: the projection matrix composed
 with the viewport transform of section 2.12.1 of the OpenGL ES 2.0
 specification, and the strip of two triangles with its texture coordinates.
 */
module BlitGeometry {
  datatype Point = Point(x: real, y: real)

  /** GL_VIEWPORT: origin and size. */
  datatype Viewport = Viewport(x: real, y: real, width: real, height: real)

  predicate Positive(vp: Viewport) {
    vp.width > 0.0 && vp.height > 0.0
  }

  type Matrix = m: seq<real> | |m| == 16 witness seq(16, _ => 0.0)

  /** One component of a column-major matrix times (x, y, 0, 1). */
  function Component(m: Matrix, row: nat, p: Point): real
    requires row < 4
  {
    m[row] * p.x + m[4 + row] * p.y + m[12 + row]
  }

  /** The window coordinates of a vertex: perspective division, then the viewport transform. */
  function WindowPosition(m: Matrix, vp: Viewport, p: Point): Point
    requires Component(m, 3, p) != 0.0
  {
    var w := Component(m, 3, p);
    Point(
      vp.width / 2.0 * (Component(m, 0, p) / w) + (vp.x + vp.width / 2.0),
      vp.height / 2.0 * (Component(m, 1, p) / w) + (vp.y + vp.height / 2.0))
  }

  /** screenToNdc before invert is looked at. */
  function ScreenToNdc(vp: Viewport): Matrix
    requires Positive(vp)
  {
    [2.0 / vp.width, 0.0, 0.0, 0.0,
     0.0, -2.0 / vp.height, 0.0, 0.0,
     0.0, 0.0, 1.0, 0.0,
     -1.0, 1.0, 0.0, 1.0]
  }

  /** The matrix handed to the shader. */
  function Projection(vp: Viewport, invert: bool): Matrix
    requires Positive(vp)
  {
    var m := ScreenToNdc(vp);
    if invert then m[5 := -m[5]][13 := -m[13]] else m
  }

  /** Where a pixel position ends up: itself when inverted, mirrored top to bottom otherwise, from the viewport's origin. */
  function OnScreen(vp: Viewport, invert: bool, p: Point): Point {
    Point(vp.x + p.x, vp.y + if invert then p.y else vp.height - p.y)
  }

  /** The matrix as beforeDraw builds it, edited in place. */
  method BeforeDrawMatrix(vp: Viewport, invert: bool) returns (screenToNdc: array<real>)
    requires Positive(vp)
    ensures fresh(screenToNdc) && screenToNdc[..] == Projection(vp, invert)
  {
    screenToNdc := new real[16](i => 0.0);
    screenToNdc[0] := 2.0 / vp.width;
    screenToNdc[5] := -2.0 / vp.height;
    screenToNdc[10] := 1.0;
    screenToNdc[12] := -1.0;
    screenToNdc[13] := 1.0;
    screenToNdc[15] := 1.0;
    assert screenToNdc[..] == ScreenToNdc(vp);
    if invert {
      screenToNdc[5] := -screenToNdc[5];
      screenToNdc[13] := -screenToNdc[13];
    }
  }

  lemma HalfOfTwice(size: real, p: real)
    requires size > 0.0
    ensures size / 2.0 * (2.0 / size * p) == p && size / 2.0 * (-2.0 / size * p) == -p
  {
    assert 2.0 / size * size == 2.0;
    assert size / 2.0 * (2.0 / size * p) == 2.0 / size * size * p / 2.0;
    assert -2.0 / size == -(2.0 / size);
  }

  /** Matrix and viewport transform together put every vertex where OnScreen says. */
  lemma PixelsOnScreen(vp: Viewport, invert: bool, p: Point)
    requires Positive(vp)
    ensures Component(Projection(vp, invert), 3, p) == 1.0
    ensures WindowPosition(Projection(vp, invert), vp, p) == OnScreen(vp, invert, p)
    ensures WindowPosition(Projection(vp, invert), vp, p)
      == Point(vp.x + p.x, vp.y + if invert then p.y else vp.height - p.y)
  {
    HalfOfTwice(vp.width, p.x);
    HalfOfTwice(vp.height, p.y);
    var m := Projection(vp, invert);
    var k := 2.0 / vp.width * p.x;
    assert Component(m, 0, p) == k - 1.0;
    assert vp.width / 2.0 * (k - 1.0) == vp.width / 2.0 * k - vp.width / 2.0;
    var d := if invert then 2.0 / vp.height * p.y else -2.0 / vp.height * p.y;
    var one := if invert then -1.0 else 1.0;
    assert m[5] * p.y == d;
    assert Component(m, 1, p) == d + one;
    assert vp.height / 2.0 * (d + one) == vp.height / 2.0 * d + vp.height / 2.0 * one;
  }

  /** The depth of a vertex (x, y, z, 1) is z, whatever the viewport. */
  lemma DepthIsKept(vp: Viewport, invert: bool, x: real, y: real, z: real)
    requires Positive(vp)
    ensures var m := Projection(vp, invert);
      && m[2] * x + m[6] * y + m[10] * z + m[14] == z
      && m[3] * x + m[7] * y + m[11] * z + m[15] == 1.0
  {
  }

  // ---------- the strip ----------

  datatype Rect = Rect(x: real, y: real, w: real, h: real)

  datatype Triangle = Triangle(p: Point, q: Point, r: Point)

  /** pos and uv: the first triangle is vertices 0, 1, 2, the second 1, 2, 3. */
  function Pos(r: Rect): (v: seq<Point>)
    ensures |v| == 4
  {
    [Point(r.x, r.y + r.h), Point(r.x + r.w, r.y + r.h), Point(r.x, r.y), Point(r.x + r.w, r.y)]
  }

  function Uv(): (v: seq<Point>)
    ensures |v| == 4
  {
    [Point(0.0, 0.0), Point(1.0, 0.0), Point(0.0, 1.0), Point(1.0, 1.0)]
  }

  function First(v: seq<Point>): Triangle
    requires |v| == 4
  {
    Triangle(v[0], v[1], v[2])
  }

  function Second(v: seq<Point>): Triangle
    requires |v| == 4
  {
    Triangle(v[1], v[2], v[3])
  }

  datatype Weights = Weights(a: real, b: real, c: real)

  predicate Convex(l: Weights) {
    l.a >= 0.0 && l.b >= 0.0 && l.c >= 0.0 && l.a + l.b + l.c == 1.0
  }

  /** The value a triangle's weights give, of positions and of whatever varies over it. */
  function Mix(t: Triangle, l: Weights): Point {
    Point(l.a * t.p.x + l.b * t.q.x + l.c * t.r.x, l.a * t.p.y + l.b * t.q.y + l.c * t.r.y)
  }

  ghost predicate Inside(t: Triangle, p: Point) {
    exists l :: Convex(l) && Mix(t, l) == p
  }

  /** The point a fraction s across and t down the rectangle. */
  function At(r: Rect, s: real, t: real): Point {
    Point(r.x + r.w * s, r.y + r.h * t)
  }

  lemma FirstMix(r: Rect, l: Weights)
    requires l.a + l.b + l.c == 1.0
    ensures Mix(First(Pos(r)), l) == At(r, l.b, l.a + l.b)
    ensures Mix(First(Uv()), l) == Point(l.b, 1.0 - (l.a + l.b))
  {
    assert l.a * r.x + l.b * (r.x + r.w) + l.c * r.x == (l.a + l.b + l.c) * r.x + r.w * l.b;
    assert l.a * (r.y + r.h) + l.b * (r.y + r.h) + l.c * r.y == (l.a + l.b + l.c) * r.y + r.h * (l.a + l.b);
  }

  lemma SecondMix(r: Rect, l: Weights)
    requires l.a + l.b + l.c == 1.0
    ensures Mix(Second(Pos(r)), l) == At(r, l.a + l.c, l.a)
    ensures Mix(Second(Uv()), l) == Point(l.a + l.c, 1.0 - l.a)
  {
    assert l.a * (r.x + r.w) + l.b * r.x + l.c * (r.x + r.w) == (l.a + l.b + l.c) * r.x + r.w * (l.a + l.c);
    assert l.a * (r.y + r.h) + l.b * r.y + l.c * r.y == (l.a + l.b + l.c) * r.y + r.h * l.a;
  }

  lemma AtInjective(r: Rect, s: real, t: real, s1: real, t1: real)
    requires r.w > 0.0 && r.h > 0.0 && At(r, s, t) == At(r, s1, t1)
    ensures s == s1 && t == t1
  {
    SameFactor(r.w, s, s1);
    SameFactor(r.h, t, t1);
  }

  lemma SameFactor(k: real, s: real, t: real)
    requires k > 0.0 && k * s == k * t
    ensures s == t
  {
    assert k * (s - t) == 0.0;
  }

  lemma InFirst(r: Rect, s: real, t: real)
    requires r.w > 0.0 && r.h > 0.0
    ensures Inside(First(Pos(r)), At(r, s, t)) <==> 0.0 <= s <= t <= 1.0
  {
    var l := Weights(t - s, s, 1.0 - t);
    FirstMix(r, l);
    if 0.0 <= s <= t <= 1.0 {
      assert Convex(l);
    }
    if Inside(First(Pos(r)), At(r, s, t)) {
      var k :| Convex(k) && Mix(First(Pos(r)), k) == At(r, s, t);
      FirstMix(r, k);
      AtInjective(r, s, t, k.b, k.a + k.b);
    }
  }

  lemma InSecond(r: Rect, s: real, t: real)
    requires r.w > 0.0 && r.h > 0.0
    ensures Inside(Second(Pos(r)), At(r, s, t)) <==> 0.0 <= t <= s <= 1.0
  {
    var l := Weights(t, 1.0 - s, s - t);
    SecondMix(r, l);
    if 0.0 <= t <= s <= 1.0 {
      assert Convex(l);
    }
    if Inside(Second(Pos(r)), At(r, s, t)) {
      var k :| Convex(k) && Mix(Second(Pos(r)), k) == At(r, s, t);
      SecondMix(r, k);
      AtInjective(r, s, t, k.a + k.c, k.a);
    }
  }

  predicate InRect(r: Rect, p: Point) {
    r.x <= p.x <= r.x + r.w && r.y <= p.y <= r.y + r.h
  }

  predicate OnDiagonal(r: Rect, p: Point) {
    (p.x - r.x) * r.h == (p.y - r.y) * r.w
  }

  lemma Fraction(k: real, d: real) returns (s: real)
    requires k > 0.0
    ensures d == k * s && (0.0 <= s <= 1.0 <==> 0.0 <= d <= k)
  {
    s := d / k;
    assert k * s == d;
    if s < 0.0 { assert k * s < 0.0; }
    if s > 1.0 { assert k * (s - 1.0) > 0.0; }
    if 0.0 <= s <= 1.0 { assert k * s >= 0.0 && k * (1.0 - s) >= 0.0; }
  }

  lemma Fractions(r: Rect, p: Point) returns (s: real, t: real)
    requires r.w > 0.0 && r.h > 0.0
    ensures p == At(r, s, t)
    ensures InRect(r, p) <==> 0.0 <= s <= 1.0 && 0.0 <= t <= 1.0
    ensures OnDiagonal(r, p) <==> s == t
  {
    s := Fraction(r.w, p.x - r.x);
    t := Fraction(r.h, p.y - r.y);
    Diagonal(r, s, t);
  }

  lemma Diagonal(r: Rect, s: real, t: real)
    requires r.w > 0.0 && r.h > 0.0
    ensures r.w * s * r.h == r.h * t * r.w <==> s == t
  {
    var k := r.w * r.h;
    assert r.w * s * r.h == k * s && r.h * t * r.w == k * t;
    if k * s == k * t {
      SameFactor(k, s, t);
    }
  }

  /** The strip tiles the rectangle: together its triangles are the rectangle, and they share only the diagonal. */
  lemma StripTiles(r: Rect, p: Point)
    requires r.w > 0.0 && r.h > 0.0
    ensures InRect(r, p) <==> Inside(First(Pos(r)), p) || Inside(Second(Pos(r)), p)
    ensures Inside(First(Pos(r)), p) && Inside(Second(Pos(r)), p) <==> InRect(r, p) && OnDiagonal(r, p)
  {
    hide Inside, InRect, OnDiagonal, At, Pos, First, Second;
    var s, t := Fractions(r, p);
    InFirst(r, s, t);
    InSecond(r, s, t);
  }

  // ---------- the texture ----------

  /** vTextureCoord of a vertex. */
  function TextureCoord(texMatrix: Matrix, uv: Point): Point {
    Point(Component(texMatrix, 0, uv), Component(texMatrix, 1, uv))
  }

  function TextureTriangle(texMatrix: Matrix, t: Triangle): Triangle {
    Triangle(TextureCoord(texMatrix, t.p), TextureCoord(texMatrix, t.q), TextureCoord(texMatrix, t.r))
  }

  lemma MixComponent(m: Matrix, row: nat, t: Triangle, l: Weights)
    requires row < 4 && l.a + l.b + l.c == 1.0
    ensures l.a * Component(m, row, t.p) + l.b * Component(m, row, t.q) + l.c * Component(m, row, t.r)
      == Component(m, row, Mix(t, l))
  {
    var (x, y, z) := (m[row], m[4 + row], m[12 + row]);
    LinearMix(x, y, z, t.p, l.a);
    LinearMix(x, y, z, t.q, l.b);
    LinearMix(x, y, z, t.r, l.c);
    assert (l.a + l.b + l.c) * z == z;
    assert x * (l.a * t.p.x + l.b * t.q.x + l.c * t.r.x) == l.a * (x * t.p.x) + l.b * (x * t.q.x) + l.c * (x * t.r.x);
    assert y * (l.a * t.p.y + l.b * t.q.y + l.c * t.r.y) == l.a * (y * t.p.y) + l.b * (y * t.q.y) + l.c * (y * t.r.y);
  }

  lemma LinearMix(x: real, y: real, z: real, p: Point, a: real)
    ensures a * (x * p.x + y * p.y + z) == a * (x * p.x) + a * (y * p.y) + a * z
  {
  }

  /** Interpolating after the texture matrix is applied equals applying it to the interpolation. */
  lemma TextureMix(texMatrix: Matrix, t: Triangle, l: Weights)
    requires l.a + l.b + l.c == 1.0
    ensures Mix(TextureTriangle(texMatrix, t), l) == TextureCoord(texMatrix, Mix(t, l))
    ensures var m, at, uv := texMatrix, Mix(TextureTriangle(texMatrix, t), l), Mix(t, l);
      && at.x == m[0] * uv.x + m[4] * uv.y + m[12]
      && at.y == m[1] * uv.x + m[5] * uv.y + m[13]
  {
    hide Component, Mix;
    TextureMixes(texMatrix, t, l);
    TextureEntries(texMatrix, Mix(t, l));
  }

  lemma TextureMixes(texMatrix: Matrix, t: Triangle, l: Weights)
    requires l.a + l.b + l.c == 1.0
    ensures Mix(TextureTriangle(texMatrix, t), l) == TextureCoord(texMatrix, Mix(t, l))
  {
    hide Component;
    MixComponent(texMatrix, 0, t, l);
    MixComponent(texMatrix, 1, t, l);
  }

  /** The first two components of the matrix product, entry by entry. */
  lemma TextureEntries(m: Matrix, uv: Point)
    ensures TextureCoord(m, uv) == Point(m[0] * uv.x + m[4] * uv.y + m[12], m[1] * uv.x + m[5] * uv.y + m[13])
  {
  }

  /** Where in the texture a point of either triangle lies. */
  lemma MixedUv(r: Rect, second: bool, l: Weights, s: real, t: real)
    requires r.w > 0.0 && r.h > 0.0 && Convex(l)
    requires Mix(if second then Second(Pos(r)) else First(Pos(r)), l) == Point(r.x + r.w * s, r.y + r.h * t)
    ensures Mix(if second then Second(Uv()) else First(Uv()), l) == Point(s, 1.0 - t)
  {
    assert At(r, s, t) == Point(r.x + r.w * s, r.y + r.h * t);
    hide At;
    if second {
      SecondMix(r, l);
      AtInjective(r, s, t, l.a + l.c, l.a);
    } else {
      FirstMix(r, l);
      AtInjective(r, s, t, l.b, l.a + l.b);
    }
  }

  /**
   One affine map carries the texture across both triangles: wherever a point of
   the rectangle is, and in whichever triangle, it shows the texture at its
   fraction across and its fraction up from the rectangle's far edge, under the
   first two rows of the matrix.
   */
  lemma OneTextureMap(texMatrix: Matrix, r: Rect, second: bool, l: Weights, s: real, t: real)
    requires r.w > 0.0 && r.h > 0.0 && Convex(l)
    requires Mix(if second then Second(Pos(r)) else First(Pos(r)), l) == Point(r.x + r.w * s, r.y + r.h * t)
    ensures var m, at := texMatrix, Mix(TextureTriangle(texMatrix, if second then Second(Uv()) else First(Uv())), l);
      && at.x == m[0] * s + m[4] * (1.0 - t) + m[12]
      && at.y == m[1] * s + m[5] * (1.0 - t) + m[13]
  {
    hide TextureTriangle, Mix, Pos, Uv, First, Second;
    MixedUv(r, second, l, s, t);
    TextureMix(texMatrix, if second then Second(Uv()) else First(Uv()), l);
  }

  function Projected(vp: Viewport, invert: bool, t: Triangle): Triangle
    requires Positive(vp)
  {
    Triangle(OnScreen(vp, invert, t.p), OnScreen(vp, invert, t.q), OnScreen(vp, invert, t.r))
  }

  lemma OnScreenMix(vp: Viewport, invert: bool, t: Triangle, l: Weights)
    requires Positive(vp) && l.a + l.b + l.c == 1.0
    ensures Mix(Projected(vp, invert, t), l) == OnScreen(vp, invert, Mix(t, l))
  {
    var one := l.a + l.b + l.c;
    assert l.a * (vp.x + t.p.x) + l.b * (vp.x + t.q.x) + l.c * (vp.x + t.r.x)
      == one * vp.x + (l.a * t.p.x + l.b * t.q.x + l.c * t.r.x);
    if invert {
      assert l.a * (vp.y + t.p.y) + l.b * (vp.y + t.q.y) + l.c * (vp.y + t.r.y)
        == one * vp.y + (l.a * t.p.y + l.b * t.q.y + l.c * t.r.y);
    } else {
      assert l.a * (vp.y + (vp.height - t.p.y)) + l.b * (vp.y + (vp.height - t.q.y)) + l.c * (vp.y + (vp.height - t.r.y))
        == one * vp.y + one * vp.height - (l.a * t.p.y + l.b * t.q.y + l.c * t.r.y);
    }
  }

  /**
   What a blit shows: at every window position of either projected triangle, the
   fragment's texture coordinate is the one affine map of the pixel it came from.
   */
  lemma BlitShows(vp: Viewport, invert: bool, texMatrix: Matrix, r: Rect, second: bool, l: Weights)
    returns (s: real, t: real)
    requires Positive(vp) && r.w > 0.0 && r.h > 0.0 && Convex(l)
    ensures 0.0 <= s <= 1.0 && 0.0 <= t <= 1.0
    ensures Mix(Projected(vp, invert, if second then Second(Pos(r)) else First(Pos(r))), l)
      == Point(vp.x + (r.x + r.w * s), vp.y + if invert then r.y + r.h * t else vp.height - (r.y + r.h * t))
    ensures var m, at := texMatrix, Mix(TextureTriangle(texMatrix, if second then Second(Uv()) else First(Uv())), l);
      && at.x == m[0] * s + m[4] * (1.0 - t) + m[12]
      && at.y == m[1] * s + m[5] * (1.0 - t) + m[13]
  {
    hide TextureTriangle, Mix, Pos, Uv, First, Second, Projected, OnScreen;
    s, t := Shares(r, second, l);
    OnScreenMix(vp, invert, if second then Second(Pos(r)) else First(Pos(r)), l);
    OnScreenAt(vp, invert, r, s, t);
    OneTextureMap(texMatrix, r, second, l, s, t);
  }

  lemma Shares(r: Rect, second: bool, l: Weights) returns (s: real, t: real)
    requires Convex(l)
    ensures 0.0 <= s <= 1.0 && 0.0 <= t <= 1.0
    ensures Mix(if second then Second(Pos(r)) else First(Pos(r)), l) == Point(r.x + r.w * s, r.y + r.h * t)
  {
    hide Mix, Pos, Uv, First, Second;
    if second {
      SecondMix(r, l);
      s, t := l.a + l.c, l.a;
    } else {
      FirstMix(r, l);
      s, t := l.b, l.a + l.b;
    }
  }

  lemma OnScreenAt(vp: Viewport, invert: bool, r: Rect, s: real, t: real)
    ensures OnScreen(vp, invert, Point(r.x + r.w * s, r.y + r.h * t))
      == Point(vp.x + (r.x + r.w * s), vp.y + if invert then r.y + r.h * t else vp.height - (r.y + r.h * t))
  {
  }

  /** kIdentity. */
  function Identity(): Matrix {
    [1.0, 0.0, 0.0, 0.0,
     0.0, 1.0, 0.0, 0.0,
     0.0, 0.0, 1.0, 0.0,
     0.0, 0.0, 0.0, 1.0]
  }

  /**
   With the identity matrix, the point a fraction s across and t down the rectangle
   shows the texture at (s, 1 - t), so its four corners show the texture's corners.
   */
  lemma IdentityShowsTexture(r: Rect, second: bool, l: Weights, s: real, t: real)
    requires r.w > 0.0 && r.h > 0.0 && Convex(l)
    requires Mix(if second then Second(Pos(r)) else First(Pos(r)), l) == Point(r.x + r.w * s, r.y + r.h * t)
    ensures Mix(TextureTriangle(Identity(), if second then Second(Uv()) else First(Uv())), l) == Point(s, 1.0 - t)
  {
    hide TextureTriangle, Mix;
    OneTextureMap(Identity(), r, second, l, s, t);
  }

  /** The corners, from (x, y) in reading order, with the triangle each belongs to. */
  lemma CornersShowCorners(r: Rect)
    requires r.w > 0.0 && r.h > 0.0
    ensures var first, second := TextureTriangle(Identity(), First(Uv())), TextureTriangle(Identity(), Second(Uv()));
      && First(Pos(r)).r == Point(r.x, r.y) && first.r == Point(0.0, 1.0)
      && Second(Pos(r)).r == Point(r.x + r.w, r.y) && second.r == Point(1.0, 1.0)
      && First(Pos(r)).p == Point(r.x, r.y + r.h) && first.p == Point(0.0, 0.0)
      && First(Pos(r)).q == Point(r.x + r.w, r.y + r.h) && first.q == Point(1.0, 0.0)
  {
  }
}
