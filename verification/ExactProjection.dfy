/**
 The letterbox in exact arithmetic: the display scaled to just fit the video
 area, then truncated.
 */
module ExactProjection {
  import opened Projection

  function MinReal(x: real, y: real): real {
    if x <= y then x else y
  }

  function FitScale(w: real, h: real, vw: real, vh: real): real
    requires w > 0.0 && h > 0.0
  {
    MinReal(vw / w, vh / h)
  }

  /** The scale at which the display just fits the video area. */
  function Scale(display: Size, video: Size): real
    requires display.width > 0 && display.height > 0
  {
    FitScale(display.width as real, display.height as real, video.width as real, video.height as real)
  }

  /** x / y <= z / w exactly when x * w <= z * y. */
  lemma CrossMultiply(x: real, y: real, z: real, w: real)
    requires y > 0.0 && w > 0.0
    ensures x / y <= z / w <==> x * w <= z * y
  {
    DivMul(x, y);
    DivMul(z, w);
    var p, q := x / y, z / w;
    assert x * w == p * (y * w) && z * y == q * (y * w);
    if p <= q {
      MulMono(p, q, y * w);
    }
    if p * (y * w) <= q * (y * w) {
      Cancel(p, q, y * w);
    }
  }

  lemma ScaledSides(w: real, h: real, vw: real, vh: real)
    requires w > 0.0 && h > 0.0 && vw > 0.0 && vh > 0.0
    ensures var s := FitScale(w, h, vw, vh);
      && (vw * h <= vh * w ==> s * w == vw && s * h == vw * h / w)
      && (vw * h >= vh * w ==> s * h == vh && s * w == vh * w / h)
  {
    CrossMultiply(vw, w, vh, h);
    CrossMultiply(vh, h, vw, w);
    DivMul(vw, w);
    DivMul(vh, h);
    assert vw / w * h == vw * h / w;
    assert vh / h * w == vh * w / h;
  }

  /** The exact product m = vw * (h / w) and quotient q = vh / (h / w), without the inner division. */
  lemma ExactOperations(w: real, h: real, vw: real, vh: real)
    requires w > 0.0 && h > 0.0 && vw > 0.0 && vh > 0.0
    ensures h / w > 0.0
    ensures vw * (h / w) == vw * h / w && vh / (h / w) == vh * w / h
    ensures vh <= vw * (h / w) <==> vh * w <= vw * h
    ensures vh * w <= vw * h ==> 0.0 <= vh / (h / w) <= vw
  {
    var a := h / w;
    DivMul(h, w);
    DivDiv(vh, h, w);
    assert vw * a == vw * h / w;
    assert vw * a * w == vw * h;
    if vh <= vw * a { MulMono(vh, vw * a, w); }
    if vh * w <= vw * a * w { Cancel(vh, vw * a, w); }
    if vh * w <= vw * h {
      DivMul(vh, a);
      Cancel(vh / a, vw, a);
      DivMul(vh, a);
    }
  }

  /** The two branches of the source in terms of the three results they use. */
  lemma LetterboxOfExact(convert: real -> nat, display: Size, video: Size)
    requires display.width > 0
    ensures var a := Over(display.height as real, display.width as real);
      var m, q := convert(Times(video.width as real, a)), convert(Over(video.height as real, a));
      Letterbox(ExactUnit(convert), display, video) == if video.height > m then Size(video.width, m) else Size(q, video.height)
  {
    hide Over, Times;
    var u := ExactUnit(convert);
    assert forall x, y :: u.div(x, y) == Over(x, y) && u.mul(x, y) == Times(x, y);
    assert u.toU32 == convert;
  }

  lemma Operations(w: real, h: real, vw: real, vh: real) returns (a: real, m: real, q: real)
    requires w > 0.0 && h > 0.0 && vw > 0.0 && vh > 0.0
    ensures a == Over(h, w) && m == Times(vw, a) && q == Over(vh, a)
    ensures a == h / w && m == vw * (h / w) && q == vh / (h / w)
    ensures 0.0 <= m && 0.0 <= q && (vh <= m ==> q <= vw)
  {
    ExactOperations(w, h, vw, vh);
    a := h / w;
    m := vw * a;
    q := vh / a;
    DivMul(vh, a);
  }

  lemma ProductInRange(w: real, h: real, vw: real, m: real, limit: real)
    requires w > 0.0 && m == vw * (h / w)
    ensures m < limit <==> vw * h < limit * w
  {
    DivMul(h, w);
    LessTimes(m, limit, w);
    assert m * w == vw * h by {
      assert vw * (h / w) * w == vw * (h / w * w);
    }
  }

  /** The scaled sides, by the branch that is taken. */
  lemma ScaledByBranch(w: real, h: real, vw: real, vh: real, m: real, q: real) returns (sw: real, sh: real)
    requires w > 0.0 && h > 0.0 && vw > 0.0 && vh > 0.0
    requires m == vw * (h / w) && q == vh / (h / w)
    ensures sw == Times(FitScale(w, h, vw, vh), w) && sh == Times(FitScale(w, h, vw, vh), h)
    ensures if vh > m then sw == vw && sh == m else sh == vh && sw == q
  {
    hide FitScale;
    ScaledSides(w, h, vw, vh);
    ExactOperations(w, h, vw, vh);
    sw, sh := FitScale(w, h, vw, vh) * w, FitScale(w, h, vw, vh) * h;
  }

  /** Comparing with the truncated product takes the same branch as comparing with the product. */
  lemma BranchFloors(convert: real -> nat, limit: nat, video: Size, m: real, q: real, sw: real, sh: real)
    requires TruncatesBelow(convert, limit) && video.width < limit
    requires 0.0 <= m < limit as real && 0.0 <= q && (video.height as real <= m ==> q <= video.width as real)
    requires if video.height as real > m then sw == video.width as real && sh == m else sh == video.height as real && sw == q
    ensures (if video.height > convert(m) then Size(video.width, convert(m)) else Size(convert(q), video.height))
      == Size(Truncated(sw), Truncated(sh))
  {
    assert convert(m) == Truncated(m);
    assert video.height as real > m <==> video.height > m.Floor;
    if video.height as real <= m {
      assert convert(q) == Truncated(q);
    }
  }

  /** The display scaled to just fit, then truncated. */
  function Scaled(display: Size, video: Size): Size
    requires display.width > 0 && display.height > 0
  {
    var s := Scale(display, video);
    Size(Truncated(Times(s, display.width as real)), Truncated(Times(s, display.height as real)))
  }

  /**
   In exact arithmetic the two branches, although they compare with a truncated
   product, compute the display scaled to just fit and then truncated, as long
   as the conversion truncates the product.
   */
  lemma ExactLetterbox(convert: real -> nat, limit: nat, display: Size, video: Size)
    requires TruncatesBelow(convert, limit)
    requires display.width > 0 && display.height > 0 && 0 < video.width < limit && 0 < video.height
    requires video.width * display.height < limit * display.width
    ensures Letterbox(ExactUnit(convert), display, video) == Scaled(display, video)
  {
    hide Letterbox, ExactUnit, FitScale, Over, Times, Truncated, TruncatesBelow;
    RealProduct(video.width, display.height);
    RealProduct(limit, display.width);
    var w, h, vw, vh := display.width as real, display.height as real, video.width as real, video.height as real;
    var a, m, q := Operations(w, h, vw, vh);
    ProductInRange(w, h, vw, m, limit as real);
    var sw, sh := ScaledByBranch(w, h, vw, vh, m, q);
    BranchFloors(convert, limit, video, m, q, sw, sh);
    LetterboxOfExact(convert, display, video);
    assert Scaled(display, video) == Size(Truncated(sw), Truncated(sh));
  }

  /** For all positive sizes, when the conversion truncates without a bound. */
  lemma UnboundedLetterbox(display: Size, video: Size)
    requires display.width > 0 && display.height > 0 && video.width > 0 && video.height > 0
    ensures Letterbox(ExactUnit(Truncated), display, video) == Scaled(display, video)
  {
    hide Letterbox, ExactUnit, Scaled, Truncated;
    var product := video.width * display.height;
    var limit := (video.width + product) + 1;
    assert limit * 1 <= limit * display.width;
    ExactLetterbox(Truncated, limit, display, video);
  }

  /**
   A conversion to uint32_t is only sure to give that rectangle when the product
   is in its range: otherwise it may produce 0, and so an empty rectangle.
   */
  lemma ExactIffInRange(display: Size, video: Size)
    requires display.width > 0 && display.height > 0 && 0 < video.width < U32 && 0 < video.height < U32
    ensures (forall convert: real -> nat | TruncatesBelow(convert, U32) ::
               Letterbox(ExactUnit(convert), display, video) == Scaled(display, video))
      <==> video.width * display.height < U32 * display.width
  {
    if video.width * display.height < U32 * display.width {
      forall convert: real -> nat | TruncatesBelow(convert, U32)
        ensures Letterbox(ExactUnit(convert), display, video) == Scaled(display, video)
      {
        hide *;
        ExactLetterbox(convert, U32, display, video);
      }
    } else {
      OutOfRangeIsEmpty(display, video);
      assert TruncatesBelow(ZeroOutside, U32);
    }
  }

  lemma OutOfRangeIsEmpty(display: Size, video: Size)
    requires display.width > 0 && display.height > 0 && 0 < video.width < U32 && 0 < video.height < U32
    requires video.width * display.height >= U32 * display.width
    ensures Letterbox(ExactUnit(ZeroOutside), display, video) == Size(video.width, 0) != Scaled(display, video)
  {
    hide Letterbox, ExactUnit, FitScale, Over, Times;
    RealProduct(video.width, display.height);
    RealProduct(U32, display.width);
    var w, h, vw, vh := display.width as real, display.height as real, video.width as real, video.height as real;
    var a, m, q := Operations(w, h, vw, vh);
    ProductInRange(w, h, vw, m, U32 as real);
    var sw, sh := ScaledByBranch(w, h, vw, vh, m, q);
    LetterboxOfExact(ZeroOutside, display, video);
    assert Scaled(display, video) == Size(Truncated(sw), Truncated(sh));
  }

  /** A scale fits the video area exactly when it is at most Scale. */
  lemma ScaleIsLargestFit(display: Size, video: Size, t: real)
    requires display.width > 0 && display.height > 0
    ensures t * display.width as real <= video.width as real && t * display.height as real <= video.height as real
      <==> t <= Scale(display, video)
  {
    FitBelow(t, display.width as real, video.width as real);
    FitBelow(t, display.height as real, video.height as real);
  }

  lemma FitBelow(t: real, w: real, vw: real)
    requires w > 0.0
    ensures t * w <= vw <==> t <= vw / w
  {
    DivMul(vw, w);
    LessTimes(vw / w, t, w);
  }

  /** Zero when out has exactly the display's shape. */
  function CrossError(out: Size, display: Size): int {
    out.width * display.height - out.height * display.width
  }

  /**
   For all positive sizes the scaled rectangle lies inside the video area, meets
   it on one side, and its cross-multiplied aspect error is less than the
   display's width one way and its height the other. With sizes that a uint32_t
   holds, the subtractions do not wrap and opposite margins differ by at most one.
   */
  lemma ScaledShape(display: Size, video: Size)
    requires display.width > 0 && display.height > 0 && video.width > 0 && video.height > 0
    ensures var out := Scaled(display, video);
      && Touches(out, video)
      && (video.width < U32 && video.height < U32 ==> CentredIn(DisplayRect(out, video), out, video))
      && 0 < CrossError(out, display) + display.height && CrossError(out, display) < display.width
  {
    hide Scaled, FitScale, Times, DisplayRect, CentredIn, CrossError;
    var sw, sh := ScaledSizeSides(display, video);
    var out := Scaled(display, video);
    CrossErrorBound(display, out, sw, sh);
    if video.width < U32 && video.height < U32 {
      CentredInside(out, video);
    }
  }

  lemma CrossErrorBound(display: Size, out: Size, sw: real, sh: real)
    requires display.width > 0 && display.height > 0 && 0.0 <= sw && 0.0 <= sh && out == Size(sw.Floor, sh.Floor)
    requires Times(sw, display.height as real) == Times(sh, display.width as real)
    ensures 0 < CrossError(out, display) + display.height && CrossError(out, display) < display.width
  {
    hide Times, CrossError;
    AspectError(display.width as real, display.height as real, sw, sh, out.width as real, out.height as real);
    CrossDifference(out, display);
  }

  lemma ScaledSizeSides(display: Size, video: Size) returns (sw: real, sh: real)
    requires display.width > 0 && display.height > 0 && video.width > 0 && video.height > 0
    ensures 0.0 <= sw <= video.width as real && 0.0 <= sh <= video.height as real
    ensures sw == video.width as real || sh == video.height as real
    ensures Times(sw, display.height as real) == Times(sh, display.width as real)
    ensures Scaled(display, video) == Size(sw.Floor, sh.Floor)
  {
    hide FitScale, Times;
    var w, h, vw, vh := display.width as real, display.height as real, video.width as real, video.height as real;
    var a, m, q := Operations(w, h, vw, vh);
    sw, sh := ScaledByBranch(w, h, vw, vh, m, q);
    SameShape(w, h, vw, vh, sw, sh);
  }

  lemma SameShape(w: real, h: real, vw: real, vh: real, sw: real, sh: real)
    requires w > 0.0 && h > 0.0 && vw > 0.0 && vh > 0.0
    requires sw == Times(FitScale(w, h, vw, vh), w) && sh == Times(FitScale(w, h, vw, vh), h)
    ensures Times(sw, h) == Times(sh, w)
  {
    hide FitScale;
    var s := FitScale(w, h, vw, vh);
    assert s * w * h == s * h * w;
  }

  lemma PartTimes(d: real, h: real)
    requires h > 0.0 && 0.0 <= d < 1.0
    ensures 0.0 <= Times(d, h) < h
  {
    LessTimes(d, 1.0, h);
    MulMono(0.0, d, h);
  }

  lemma TimesMinus(x: real, y: real, h: real)
    ensures Times(x, h) == Times(y, h) + Times(x - y, h)
  {
  }

  lemma TimesBetween(y: real, x: real, h: real)
    requires h > 0.0 && y <= x < y + 1.0
    ensures Times(x, h) - h < Times(y, h) <= Times(x, h)
  {
    hide Times;
    TimesMinus(x, y, h);
    PartTimes(x - y, h);
  }

  lemma AspectError(w: real, h: real, sw: real, sh: real, x: real, y: real)
    requires w > 0.0 && h > 0.0 && Times(sw, h) == Times(sh, w) && x <= sw < x + 1.0 && y <= sh < y + 1.0
    ensures -h < Times(x, h) - Times(y, w) < w
  {
    hide Times;
    TimesBetween(x, sw, h);
    TimesBetween(y, sh, w);
  }

  lemma CrossDifference(out: Size, display: Size)
    ensures Times(out.width as real, display.height as real) - Times(out.height as real, display.width as real)
      == CrossError(out, display) as real
  {
    RealProduct(out.width, display.height);
    RealProduct(out.height, display.width);
  }
}
