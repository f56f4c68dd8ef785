/**
 How far rounding moves the letterbox from the exact one: no side by more than
 one pixel.
 */
module RoundedProjection {
  import opened Projection
  import opened ExactProjection

  /** |x - y| < 1 for sides bounded by each other as above. */
  lemma MutuallyNear(x: real, y: real)
    requires 0.0 < y <= (SIZE_BOUND - 1) as real
    requires (1.0 - EPS) * x <= (1.0 + EPS) * y && (1.0 - EPS) * y <= (1.0 + EPS) * x
    ensures y - 1.0 < x < y + 1.0
  {
    var e := EPS;
    assert (1.0 - e) * (y + 1.0) > (1.0 + e) * y by {
      assert (1.0 - e) * (y + 1.0) - (1.0 + e) * y == 1.0 - e - 2.0 * e * y;
    }
    assert (1.0 + e) * (y - 1.0) < (1.0 - e) * y by {
      assert (1.0 - e) * y - (1.0 + e) * (y - 1.0) == 1.0 + e - 2.0 * e * y;
    }
    LessTimes(x, y + 1.0, 1.0 - e);
    LessTimes(y - 1.0, x, 1.0 + e);
  }

  /** The two exact results: product and quotient have vw * vh as their product. */
  lemma ProductTimesQuotient(vw: real, vh: real, r: real, product: real, quotient: real)
    requires product == vw * r && quotient * r == vh
    ensures quotient * product == vw * vh
  {
    assert quotient * (vw * r) == vw * (quotient * r);
  }

  /** If quotient * product == vw * vh and product < vh, then quotient > vw. */
  lemma QuotientAbove(vw: real, vh: real, product: real, quotient: real)
    requires vw > 0.0 && 0.0 < product < vh && quotient * product == vw * vh
    ensures quotient > vw
  {
    LessTimes(product, vh, vw);
    assert product * vw < quotient * product;
    LessTimes(vw, quotient, product);
  }

  /** If quotient * product == vw * vh and product >= vh, then quotient <= vw. */
  lemma QuotientBelow(vw: real, vh: real, product: real, quotient: real)
    requires vw > 0.0 && 0.0 < vh <= product && quotient * product == vw * vh
    ensures quotient <= vw
  {
    MulMono(vh, product, vw);
    assert quotient * product <= vw * product;
    Cancel(quotient, vw, product);
  }

  /** The exact branch keeps the width while the rounded one keeps the height. */
  lemma RoundedUpOverHeight(vw: real, vh: real, product: real, quotient: real, m: real, q: real)
    requires 0.0 < vw <= (SIZE_BOUND - 1) as real && vh <= (SIZE_BOUND - 1) as real
    requires 0.0 < product < vh <= m && quotient * product == vw * vh
    requires m <= (1.0 + EPS) * ((1.0 + EPS) * product) && (1.0 - EPS) * quotient <= (1.0 + EPS) * q
    ensures vh - 1.0 < product && vw - 1.0 < q
  {
    TwiceRounded(product);
    QuotientAbove(vw, vh, product, quotient);
    LessThanOne(vw);
    LessTimes(vw, quotient, 1.0 - EPS);
    LessTimes(vw - 1.0, q, 1.0 + EPS);
  }

  lemma ShrunkQuotient(vw: real, vh: real, product: real, quotient: real, k: real)
    requires vh > 0.0 && quotient > 0.0 && quotient * product == vw * vh && k * product < vh
    ensures k * vw < quotient
  {
    LessTimes(k * product, vh, quotient);
    assert k * product * quotient == k * (quotient * product) == k * (vw * vh) == k * vw * vh;
    LessTimes(k * vw, quotient, vh);
  }

  /** The exact branch keeps the height while the rounded one keeps the width. */
  lemma RoundedDownBelowHeight(vw: real, vh: real, product: real, quotient: real, m: real)
    requires 0.0 < vw <= (SIZE_BOUND - 1) as real && 0.0 < vh <= (SIZE_BOUND - 1) as real
    requires m < vh <= product && quotient > 0.0 && quotient * product == vw * vh
    requires (1.0 - EPS) * ((1.0 - EPS) * product) <= m
    ensures vh - 1.0 < m && vw - 1.0 < quotient
  {
    var l := 1.0 - EPS;
    TwiceRounded(vh);
    MulMono(vh, product, l);
    MulMono(l * vh, l * product, l);
    TwiceRounded(vw);
    assert l * (l * product) == l * l * product && l * (l * vw) == l * l * vw;
    ShrunkQuotient(vw, vh, product, quotient, l * l);
  }

  /** The exact result of each operation, with the bounds that tie it to the rounded one. */
  lemma RoundedOperations(vw: real, vh: real, r: real, a: real, m: real, q: real) returns (product: real, quotient: real)
    requires vw > 0.0 && vh > 0.0 && r > 0.0 && a > 0.0 && Near(a, r) && Near(m, vw * a) && Near(q, vh / a)
    ensures product == vw * r && quotient == vh / r && product > 0.0 && quotient > 0.0 && q > 0.0
    ensures quotient * product == vw * vh
    ensures (1.0 - EPS) * ((1.0 - EPS) * product) <= m <= (1.0 + EPS) * ((1.0 + EPS) * product)
    ensures (1.0 - EPS) * q <= (1.0 + EPS) * quotient && (1.0 - EPS) * quotient <= (1.0 + EPS) * q
  {
    product, quotient := vw * r, vh / r;
    DivMul(vh, r);
    ProductNear(vw, r, a, m, product);
    QuotientNear(vh, r, a, q, quotient);
    ProductTimesQuotient(vw, vh, r, product, quotient);
  }

  /** a, m and q are the rounded results of the three operations when the exact ratio is r. */
  predicate RoundedFrom(vw: real, vh: real, r: real, a: real, m: real, q: real) {
    r > 0.0 && a > 0.0 && m > 0.0 && Near(a, r) && Near(m, vw * a) && Near(q, vh / a)
  }

  predicate WithinOne(x: real, y: real) {
    x - 1.0 < y < x + 1.0
  }

  /** Each side of the rounded rectangle is less than one from the exact side, before truncation. */
  lemma SidesWithinOne(vw: real, vh: real, r: real, a: real, m: real, q: real) returns (product: real, quotient: real)
    requires 1.0 <= vw <= (SIZE_BOUND - 1) as real && 1.0 <= vh <= (SIZE_BOUND - 1) as real
    requires RoundedFrom(vw, vh, r, a, m, q)
    ensures product == Times(vw, r) && quotient == Over(vh, r) && m > 0.0 && product > 0.0 && quotient > 0.0
    ensures vh <= m ==> 0.0 < q < vw + 1.0
    ensures var exact := if vh > product then (vw, product) else (quotient, vh);
      var rounded := if vh > m then (vw, m) else (q, vh);
      WithinOne(exact.0, rounded.0) && WithinOne(exact.1, rounded.1)
  {
    product, quotient := RoundedOperations(vw, vh, r, a, m, q);
    if vh <= m {
      NarrowedWidth(vw, vh, a, m, q);
    }
    if vh > product {
      if vh > m {
        TwiceRounded(product);
      } else {
        RoundedUpOverHeight(vw, vh, product, quotient, m, q);
      }
    } else {
      QuotientBelow(vw, vh, product, quotient);
      if vh > m {
        RoundedDownBelowHeight(vw, vh, product, quotient, m);
      } else {
        MutuallyNear(q, quotient);
      }
    }
  }

  /** The rounded branch, before truncation. */
  lemma RoundedSides(u: FloatUnit, display: Size, video: Size, m: real, q: real)
    requires Faithful(u) && InRange(display) && InRange(video)
    requires m == u.mul(video.width as real, Aspect(u, display)) && q == u.div(video.height as real, Aspect(u, display))
    requires 0.0 < m < U32 as real && (video.height as real <= m ==> 0.0 < q < video.width as real + 1.0)
    ensures var rounded := if video.height as real > m then (video.width as real, m) else (q, video.height as real);
      && 0.0 <= rounded.0 && 0.0 <= rounded.1
      && Letterbox(u, display, video) == Size(rounded.0.Floor, rounded.1.Floor)
  {
    assert u.toU32(m) == m.Floor;
    assert video.height as real > m <==> video.height > m.Floor;
    if video.height as real <= m {
      assert u.toU32(q) == q.Floor;
    }
  }

  lemma FloorsWithinOne(x: real, y: real)
    requires WithinOne(x, y)
    ensures -1 <= y.Floor - x.Floor <= 1
  {
  }

  lemma RoundedAt(u: FloatUnit, display: Size, video: Size) returns (a: real, m: real, q: real)
    requires Faithful(u) && InRange(display) && InRange(video)
    ensures a == Aspect(u, display) && m == u.mul(video.width as real, a) && q == u.div(video.height as real, a)
    ensures RoundedFrom(video.width as real, video.height as real, Over(display.height as real, display.width as real), a, m, q)
  {
    a := AspectPositive(u, display);
    m, q := u.mul(video.width as real, a), u.div(video.height as real, a);
    ProductPositive(video.width as real, a, m, u);
    DivMul(display.height as real, display.width as real);
  }

  lemma ExactSides(display: Size, video: Size, m: real, q: real) returns (sw: real, sh: real)
    requires display.width > 0 && display.height > 0 && video.width > 0 && video.height > 0
    requires m == Times(video.width as real, Over(display.height as real, display.width as real))
    requires q == Over(video.height as real, Over(display.height as real, display.width as real))
    requires m > 0.0 && q > 0.0
    ensures (sw, sh) == if video.height as real > m then (video.width as real, m) else (q, video.height as real)
    ensures sw > 0.0 && sh > 0.0 && Scaled(display, video) == Size(sw.Floor, sh.Floor)
  {
    hide FitScale;
    DivMul(display.height as real, display.width as real);
    sw, sh := ScaledByBranch(display.width as real, display.height as real, video.width as real, video.height as real, m, q);
  }

  lemma OperationsWithinOne(u: FloatUnit, display: Size, video: Size) returns (m: real, q: real, product: real, quotient: real)
    requires Faithful(u) && InRange(display) && InRange(video)
    ensures m == u.mul(video.width as real, Aspect(u, display)) && q == u.div(video.height as real, Aspect(u, display))
    ensures product == Times(video.width as real, Over(display.height as real, display.width as real))
    ensures quotient == Over(video.height as real, Over(display.height as real, display.width as real))
    ensures m > 0.0 && product > 0.0 && quotient > 0.0
    ensures video.height as real <= m ==> 0.0 < q < video.width as real + 1.0
    ensures var exact := if video.height as real > product then (video.width as real, product) else (quotient, video.height as real);
      var rounded := if video.height as real > m then (video.width as real, m) else (q, video.height as real);
      WithinOne(exact.0, rounded.0) && WithinOne(exact.1, rounded.1)
  {
    hide Aspect, Faithful, RoundedFrom, WithinOne, Times, Over;
    var a;
    a, m, q := RoundedAt(u, display, video);
    product, quotient := SidesWithinOne(
      video.width as real, video.height as real, Over(display.height as real, display.width as real), a, m, q);
  }

  /** The sides of both rectangles before truncation. */
  lemma BothSides(u: FloatUnit, display: Size, video: Size) returns (rounded: (real, real), exact: (real, real))
    requires Faithful(u) && InRange(display) && InRange(video)
    requires u.mul(video.width as real, Aspect(u, display)) < U32 as real
    ensures rounded.0 >= 0.0 && rounded.1 >= 0.0 && exact.0 >= 0.0 && exact.1 >= 0.0
    ensures Letterbox(u, display, video) == Size(rounded.0.Floor, rounded.1.Floor)
    ensures Scaled(display, video) == Size(exact.0.Floor, exact.1.Floor)
    ensures WithinOne(exact.0, rounded.0) && WithinOne(exact.1, rounded.1)
  {
    hide Letterbox, Scaled, Times, Over, Aspect, Faithful, WithinOne;
    var m, q, product, quotient := OperationsWithinOne(u, display, video);
    RoundedSides(u, display, video, m, q);
    var vw, vh := video.width as real, video.height as real;
    rounded := if vh > m then (vw, m) else (q, vh);
    var sw, sh := ExactSides(display, video, product, quotient);
    exact := (sw, sh);
  }

  /**
   As long as the rounded product is in the range of uint32_t, rounding moves
   neither side by more than one pixel, even where it takes the other branch.
   */
  lemma WithinOnePixel(u: FloatUnit, display: Size, video: Size)
    requires Faithful(u) && InRange(display) && InRange(video)
    requires u.mul(video.width as real, Aspect(u, display)) < U32 as real
    ensures var rounded, exact := Letterbox(u, display, video), Scaled(display, video);
      && exact.width - 1 <= rounded.width <= exact.width + 1
      && exact.height - 1 <= rounded.height <= exact.height + 1
  {
    hide Letterbox, Scaled, Aspect, Faithful;
    var rounded, exact := BothSides(u, display, video);
    FloorsWithinOne(exact.0, rounded.0);
    FloorsWithinOne(exact.1, rounded.1);
  }

  /** A margin of one part in 2^22 covers both rounding errors of the product. */
  const MARGIN := 0x40_0000

  /** Four sizes for which the rounded product is sure to be in range, whatever the rounding. */
  predicate SurelyInRange(display: Size, video: Size) {
    video.width * display.height * (MARGIN + 1) <= U32 * display.width * MARGIN
  }

  lemma MarginCovers(exact: real, m: real, limit: real)
    requires exact > 0.0 && m <= (1.0 + EPS) * ((1.0 + EPS) * exact)
    requires exact * (MARGIN + 1) as real <= limit * MARGIN as real
    ensures m < limit
  {
    assert (1.0 + EPS) * ((1.0 + EPS) * exact) == ((1.0 + EPS) * (1.0 + EPS)) * exact;
    LessTimes((1.0 + EPS) * (1.0 + EPS), (MARGIN + 1) as real / MARGIN as real, exact);
  }

  lemma CrossedSizes(display: Size, video: Size, exact: real)
    requires SurelyInRange(display, video) && display.width > 0
    requires exact * display.width as real == video.width as real * display.height as real
    ensures exact * (MARGIN + 1) as real <= U32 as real * MARGIN as real
  {
    var w := display.width as real;
    RealProduct(video.width, display.height);
    assert exact * (MARGIN + 1) as real * w == (video.width * display.height * (MARGIN + 1)) as real;
    assert U32 as real * MARGIN as real * w == (U32 * display.width * MARGIN) as real;
    Cancel(exact * (MARGIN + 1) as real, U32 as real * MARGIN as real, w);
  }

  lemma RoundedProductInRange(u: FloatUnit, display: Size, video: Size)
    requires Faithful(u) && InRange(display) && InRange(video) && SurelyInRange(display, video)
    ensures u.mul(video.width as real, Aspect(u, display)) < U32 as real
  {
    hide Aspect, Faithful, SurelyInRange;
    var a, m, q := RoundedAt(u, display, video);
    var w, h, vw := display.width as real, display.height as real, video.width as real;
    DivMul(h, w);
    var exact := vw * (h / w);
    assert exact > 0.0 && exact * w == vw * h by {
      LessTimes(0.0, vw, h / w);
      assert vw * (h / w) * w == vw * (h / w * w);
    }
    ProductNear(vw, h / w, a, m, exact);
    CrossedSizes(display, video, exact);
    MarginCovers(exact, m, U32 as real);
  }

  /** The same bound with a condition on the four sizes alone. */
  lemma WithinOnePixelOfSizes(u: FloatUnit, display: Size, video: Size)
    requires Faithful(u) && InRange(display) && InRange(video) && SurelyInRange(display, video)
    ensures var rounded, exact := Letterbox(u, display, video), Scaled(display, video);
      && exact.width - 1 <= rounded.width <= exact.width + 1
      && exact.height - 1 <= rounded.height <= exact.height + 1
  {
    hide Letterbox, Scaled, Aspect, Faithful, SurelyInRange;
    RoundedProductInRange(u, display, video);
    WithinOnePixel(u, display, video);
  }
}
