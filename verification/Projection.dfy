/**
 The letterbox of `VirtualDisplayManager::setDisplayProjection`: the largest
 rectangle of the display's shape inside the video area, computed in binary32
 and truncated to uint32_t, then centred by unsigned subtraction.
 */
module Projection {
  const U32 := 0x1_0000_0000

  /** Half a unit in the last place of binary32, relative: round-to-nearest of section 4.3.1 of IEEE 754-2019. */
  const EPS: real := 1.0 / 16777216.0

  /** Every integer below this bound converts to binary32 exactly, with one bit to spare. */
  const SIZE_BOUND := 0x80_0000

  /** The floating-point operations the source uses, on positive operands. */
  datatype FloatUnit = FloatUnit(div: (real, real) -> real, mul: (real, real) -> real, toU32: real -> nat)

  predicate Near(result: real, exact: real) {
    -EPS * exact <= result - exact <= EPS * exact
  }

  /** The exact operations. */
  function Over(x: real, y: real): real {
    if y == 0.0 then 0.0 else x / y
  }

  function Times(x: real, y: real): real {
    x * y
  }

  /** Each operation is within EPS of the exact result; truncation is exact in range, and some uint32_t otherwise. */
  ghost predicate Faithful(u: FloatUnit) {
    && (forall x: real, y: real :: x > 0.0 && y > 0.0 ==> Near(u.div(x, y), Over(x, y)))
    && (forall x: real, y: real :: x > 0.0 && y > 0.0 ==> Near(u.mul(x, y), Times(x, y)))
    && (forall x: real :: u.toU32(x) < U32)
    && (forall x: real :: 0.0 <= x < U32 as real ==> u.toU32(x) == x.Floor)
  }

  function Truncated(x: real): nat {
    if 0.0 <= x then x.Floor else 0
  }

  /** Exact operations; the conversion to an integer is left open. */
  function ExactUnit(toU32: real -> nat): FloatUnit {
    FloatUnit(Over, Times, toU32)
  }

  ghost predicate TruncatesBelow(convert: real -> nat, limit: nat) {
    forall x: real :: 0.0 <= x < limit as real ==> convert(x) == Truncated(x)
  }

  /** The conversion that answers 0 outside its range. */
  function ZeroOutside(x: real): (r: nat)
    ensures r < U32
  {
    if 0.0 <= x < U32 as real then x.Floor else 0
  }

  /** The hypotheses below can be met. */
  lemma ExactIsFaithful()
    ensures Faithful(ExactUnit(ZeroOutside)) && TruncatesBelow(ZeroOutside, U32)
  {
    forall x: real, y: real | x > 0.0 && y > 0.0
      ensures Near(ExactUnit(ZeroOutside).div(x, y), Over(x, y))
    {
      ExactOver(x, y);
    }
    forall x: real, y: real | x > 0.0 && y > 0.0
      ensures Near(ExactUnit(ZeroOutside).mul(x, y), Times(x, y))
    {
      ExactTimes(x, y);
    }
    forall x: real
      ensures ExactUnit(ZeroOutside).toU32(x) == ZeroOutside(x)
      ensures 0.0 <= x < U32 as real ==> ZeroOutside(x) == x.Floor
    {
    }
  }

  lemma ExactOver(x: real, y: real)
    requires x > 0.0 && y > 0.0
    ensures Near(Over(x, y), Over(x, y))
  {
    DivMul(x, y);
  }

  lemma ExactTimes(x: real, y: real)
    requires x > 0.0 && y > 0.0
    ensures Near(Times(x, y), Times(x, y))
  {
    MulMono(0.0, x, y);
  }

  datatype Size = Size(width: nat, height: nat)

  function Aspect(u: FloatUnit, display: Size): real {
    u.div(display.height as real, display.width as real)
  }

  /** outWidth and outHeight. */
  function Letterbox(u: FloatUnit, display: Size, video: Size): Size {
    var aspect := Aspect(u, display);
    if video.height > u.toU32(u.mul(video.width as real, aspect))
    then Size(video.width, u.toU32(u.mul(video.width as real, aspect)))
    else Size(u.toU32(u.div(video.height as real, aspect)), video.height)
  }

  datatype Rect = Rect(left: nat, top: nat, right: nat, bottom: nat)

  /** Unsigned subtraction and addition wrap around. */
  function DisplayRect(out: Size, video: Size): Rect {
    var offX := ((video.width - out.width) % U32) / 2;
    var offY := ((video.height - out.height) % U32) / 2;
    Rect(offX, offY, (offX + out.width) % U32, (offY + out.height) % U32)
  }

  /** r has the size out, lies in the video area, and opposite margins differ by at most one. */
  predicate CentredIn(r: Rect, out: Size, video: Size) {
    && r.right == r.left + out.width <= video.width && r.bottom == r.top + out.height <= video.height
    && 0 <= (video.width - r.right) - r.left <= 1 && 0 <= (video.height - r.bottom) - r.top <= 1
  }

  /** out lies in the video area and meets it on one side. */
  predicate Touches(out: Size, video: Size) {
    && out.width <= video.width && out.height <= video.height
    && (out.width == video.width || out.height == video.height)
  }

  predicate InRange(s: Size) {
    0 < s.width < SIZE_BOUND && 0 < s.height < SIZE_BOUND
  }

  // ---------- any faithful rounding ----------

  lemma MulMono(a: real, b: real, c: real)
    requires a <= b && c >= 0.0
    ensures a * c <= b * c
  {
  }

  /** With 0 < a: from x * a <= y * a, x <= y. */
  lemma Cancel(x: real, y: real, a: real)
    requires a > 0.0 && x * a <= y * a
    ensures x <= y
  {
    assert (x - y) * a == x * a - y * a <= 0.0;
  }

  lemma NearPositive(result: real, exact: real)
    requires Near(result, exact) && exact > 0.0
    ensures result > 0.0
  {
    assert EPS * exact < exact;
  }

  lemma DivMul(x: real, y: real)
    requires y > 0.0
    ensures x / y * y == x
    ensures x > 0.0 ==> x / y > 0.0
  {
  }

  /** q <= g * x with x * a = vh, and vh <= g * vw * a: so q <= g * g * vw. */
  lemma Chain(q: real, x: real, vh: real, vw: real, a: real, g: real)
    requires a > 0.0 && g > 0.0 && q <= g * x && x * a == vh && vh <= g * (vw * a)
    ensures q <= g * g * vw
  {
    MulMono(q, g * x, a);
    assert g * x * a == g * (x * a);
    MulMono(vh, g * (vw * a), g);
    assert g * (vw * a) * g == g * g * vw * a;
    Cancel(q, g * g * vw, a);
  }

  /** If vh <= m, with m and q rounded from vw * a and vh / a, then q is less than one pixel over vw. */
  lemma NarrowedWidth(vw: real, vh: real, a: real, m: real, q: real)
    requires 1.0 <= vw <= (SIZE_BOUND - 1) as real && vh > 0.0 && a > 0.0
    requires Near(m, vw * a) && Near(q, vh / a) && vh <= m
    ensures 0.0 < q < vw + 1.0
  {
    var g := 1.0 + EPS;
    DivMul(vh, a);
    NearPositive(q, vh / a);
    assert m <= g * (vw * a);
    assert q <= g * (vh / a);
    Chain(q, vh / a, vh, vw, a, g);
    assert g * g == 1.0 + 2.0 * EPS + EPS * EPS;
    MulMono(vw, (SIZE_BOUND - 1) as real, g * g - 1.0);
  }

  /**
   For every display and video size below 2^23 and every faithful rounding, even
   when the product is too large to truncate, the rectangle fits the video
   area: neither offset subtraction wraps, and opposite margins differ by at
   most one.
   */
  lemma FitsUnderAnyRounding(u: FloatUnit, display: Size, video: Size)
    requires Faithful(u) && InRange(display) && InRange(video)
    ensures var out := Letterbox(u, display, video);
      Touches(out, video) && CentredIn(DisplayRect(out, video), out, video)
  {
    var a := AspectPositive(u, display);
    var vw, vh := video.width as real, video.height as real;
    var m, q := u.mul(vw, a), u.div(vh, a);
    ProductPositive(vw, a, m, u);
    if video.height <= u.toU32(m) {
      assert vh <= m by {
        if m < U32 as real {
          assert u.toU32(m) == m.Floor;
        }
      }
      NarrowedWidth(vw, vh, a, m, q);
      assert u.toU32(q) == q.Floor;
    }
    CentredInside(Letterbox(u, display, video), video);
  }

  lemma AspectPositive(u: FloatUnit, display: Size) returns (a: real)
    requires Faithful(u) && InRange(display)
    ensures a == Aspect(u, display) && a > 0.0
    ensures Near(a, display.height as real / display.width as real)
  {
    a := Aspect(u, display);
    DivMul(display.height as real, display.width as real);
    NearPositive(a, display.height as real / display.width as real);
  }

  lemma ProductPositive(vw: real, a: real, m: real, u: FloatUnit)
    requires Faithful(u) && vw > 0.0 && a > 0.0 && m == u.mul(vw, a)
    ensures Near(m, vw * a) && m > 0.0
  {
    NearPositive(m, vw * a);
  }

  lemma CentredInside(out: Size, video: Size)
    requires out.width <= video.width < U32 && out.height <= video.height < U32
    ensures CentredIn(DisplayRect(out, video), out, video)
  {
  }

  // ---------- a display projected at its own size ----------

  /** num & ~1. */
  function FloorToEven(num: nat): (r: nat)
    ensures r % 2 == 0 && r <= num < r + 2
  {
    num - num % 2
  }

  lemma FloorToEvenClearsTheBit(num: bv32)
    ensures num & 0xFFFF_FFFE == num - num % 2
  {
  }

  /** gVideoWidth and gVideoHeight once the constructor has replaced those that are 0. */
  function VideoSize(configured: Size, display: Size): Size {
    Size(
      if configured.width == 0 then FloorToEven(display.width) else configured.width,
      if configured.height == 0 then FloorToEven(display.height) else configured.height)
  }

  /** A configured side is kept; one that is not becomes even, the display's own or one less. */
  lemma VideoSizeSides(configured: Size, display: Size)
    ensures var video := VideoSize(configured, display);
      && (configured.width != 0 ==> video.width == configured.width)
      && (configured.height != 0 ==> video.height == configured.height)
      && (configured.width == 0 ==> video.width % 2 == 0 && display.width - 1 <= video.width <= display.width)
      && (configured.height == 0 ==> video.height % 2 == 0 && display.height - 1 <= video.height <= display.height)
  {
  }

  lemma ScaledQuotient(k: real, x: real, y: real)
    requires y > 0.0
    ensures k * (x / y) * y == k * x
  {
    DivMul(x, y);
    assert k * (x / y) * y == k * (x / y * y);
  }

  /** A rounded quotient, multiplied back. */
  lemma Undivided(q: real, x: real, y: real)
    requires y > 0.0 && Near(q, x / y)
    ensures (1.0 - EPS) * x <= q * y <= (1.0 + EPS) * x
  {
    ScaledQuotient(1.0 - EPS, x, y);
    ScaledQuotient(1.0 + EPS, x, y);
    MulMono((1.0 - EPS) * (x / y), q, y);
    MulMono(q, (1.0 + EPS) * (x / y), y);
  }

  lemma LessTimes(m: real, limit: real, w: real)
    requires w > 0.0
    ensures m < limit <==> m * w < limit * w
  {
    if m >= limit {
      MulMono(limit, m, w);
    }
    if limit * w <= m * w {
      Cancel(limit, m, w);
    }
  }

  /** A side of at most 2^23 - 1, scaled by two rounding errors, moves by less than one. */
  lemma TwiceRounded(side: real)
    requires 0.0 < side <= (SIZE_BOUND - 1) as real
    ensures (1.0 + EPS) * ((1.0 + EPS) * side) < side + 1.0
    ensures side - 1.0 < (1.0 - EPS) * ((1.0 - EPS) * side)
  {
    var e := EPS;
    assert (1.0 + e) * ((1.0 + e) * side) == side + (2.0 * e + e * e) * side;
    assert (1.0 - e) * ((1.0 - e) * side) == side - (2.0 * e - e * e) * side;
    MulMono(side, (SIZE_BOUND - 1) as real, 2.0 * e + e * e);
    MulMono(side, (SIZE_BOUND - 1) as real, 2.0 * e - e * e);
  }

  /** The rounded product lies between the exact one shrunk twice and grown twice. */
  lemma ProductNear(vw: real, r: real, a: real, m: real, exact: real)
    requires vw > 0.0 && r > 0.0 && Near(a, r) && Near(m, vw * a) && exact == vw * r
    ensures (1.0 - EPS) * ((1.0 - EPS) * exact) <= m <= (1.0 + EPS) * ((1.0 + EPS) * exact)
  {
    var l, g := 1.0 - EPS, 1.0 + EPS;
    assert l * r <= a <= g * r;
    MulMono(l * r, a, vw);
    MulMono(a, g * r, vw);
    assert l * r * vw == l * exact && g * r * vw == g * exact && a * vw == vw * a;
    MulMono(l * exact, vw * a, l);
    MulMono(vw * a, g * exact, g);
    assert l * (vw * a) <= m <= g * (vw * a);
  }

  /** The rounded quotient and the exact one, each bounded by the other. */
  lemma QuotientNear(vh: real, r: real, a: real, q: real, exact: real)
    requires vh > 0.0 && r > 0.0 && a > 0.0 && Near(a, r) && Near(q, vh / a) && exact * r == vh
    ensures q > 0.0
    ensures (1.0 - EPS) * q <= (1.0 + EPS) * exact && (1.0 - EPS) * exact <= (1.0 + EPS) * q
  {
    var l, g := 1.0 - EPS, 1.0 + EPS;
    DivMul(vh, a);
    NearPositive(q, vh / a);
    Undivided(q, vh, a);
    TimesNear(q, r, a);
    ScaleCancel(l, q, g, exact, r, q * a);
    ScaleCancel(l, exact, g, q, r, q * a);
  }

  lemma TimesNear(q: real, r: real, a: real)
    requires q > 0.0 && r > 0.0 && Near(a, r)
    ensures (1.0 - EPS) * (q * r) <= q * a <= (1.0 + EPS) * (q * r)
  {
    var l, g := 1.0 - EPS, 1.0 + EPS;
    MulMono(l * r, a, q);
    MulMono(a, g * r, q);
    assert l * r * q == l * (q * r) && g * r * q == g * (q * r);
  }

  /** With 0 < r, a factor r common to both sides cancels. */
  lemma ScaleCancel(k: real, x: real, n: real, y: real, r: real, between: real)
    requires r > 0.0 && k * (x * r) <= between <= n * (y * r)
    ensures k * x <= n * y
  {
    assert k * x * r == k * (x * r) && n * y * r == n * (y * r);
    Cancel(k * x, n * y, r);
  }

  lemma LessThanOne(w: real)
    requires 0.0 < w <= (SIZE_BOUND - 1) as real
    ensures (1.0 + EPS) * (w - 1.0) < (1.0 - EPS) * w
  {
    var e := EPS;
    assert (1.0 + e) * (w - 1.0) == w - 1.0 + e * w - e;
    assert (1.0 - e) * w == w - e * w;
    assert 2.0 * e * w < 1.0 + e;
  }

  /** Multiplying back what was divided gives the height again, within less than one. */
  lemma RoundTripHeight(w: real, h: real, a: real, m: real)
    requires w > 0.0 && 0.0 < h <= (SIZE_BOUND - 1) as real
    requires Near(a, h / w) && Near(m, w * a)
    ensures h - 1.0 < m < h + 1.0
  {
    DivMul(h, w);
    assert w * (h / w) == h;
    ProductNear(w, h / w, a, m, h);
    TwiceRounded(h);
  }

  /** Dividing by the aspect gives at least the width less one. */
  lemma RoundTripWidth(w: real, h: real, a: real, q: real)
    requires 0.0 < w <= (SIZE_BOUND - 1) as real && h > 0.0 && a > 0.0
    requires Near(a, h / w) && Near(q, h / a)
    ensures q > w - 1.0
  {
    DivMul(h, w);
    assert w * (h / w) == h;
    QuotientNear(h, h / w, a, q, w);
    LessThanOne(w);
    LessTimes(w - 1.0, q, 1.0 + EPS);
  }

  /**
   An even display at its default size is projected from (0, 0), whatever the
   rounding, and misses at most one row or one column, never both.
   */
  lemma DefaultSizeMissesOneLine(u: FloatUnit, display: Size)
    requires Faithful(u) && InRange(display) && display.width % 2 == 0 && display.height % 2 == 0
    ensures VideoSize(Size(0, 0), display) == display
    ensures var out := Letterbox(u, display, display);
      var r := DisplayRect(out, display);
      && r.left == 0 && r.top == 0 && r.right == out.width && r.bottom == out.height
      && (|| out == display
          || out == Size(display.width, display.height - 1)
          || out == Size(display.width - 1, display.height))
  {
    FitsUnderAnyRounding(u, display, display);
    var a := AspectPositive(u, display);
    var w, h := display.width as real, display.height as real;
    var m, q := u.mul(w, a), u.div(h, a);
    ProductPositive(w, a, m, u);
    RoundTripHeight(w, h, a, m);
    RoundTripWidth(w, h, a, q);
    assert u.toU32(m) == m.Floor;
    if display.height <= u.toU32(m) {
      NarrowedWidth(w, h, a, m, q);
      assert u.toU32(q) == q.Floor;
    }
  }

  lemma RealProduct(x: nat, y: nat)
    ensures (x * y) as real == x as real * y as real
  {
  }

  lemma DivDiv(x: real, h: real, w: real)
    requires h > 0.0 && w > 0.0
    ensures h / w > 0.0 && x / (h / w) == x * w / h
  {
    DivMul(h, w);
  }
}
