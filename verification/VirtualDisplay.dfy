/**
 The size defaults and the display transaction of `VirtualDisplayManager`.
 */
module VirtualDisplay {
  import opened Wrappers
  import opened Projection
  import opened ExactProjection
  import opened RoundedProjection

  datatype Orientation = Orientation0 | Orientation90

  datatype DisplayProjection = DisplayProjection(orientation: Orientation, layerStackRect: Rect, displayRect: Rect)

  function Transposed(s: Size): Size {
    Size(s.height, s.width)
  }

  /** What the transaction is given: the whole layer stack, mapped to the centred letterbox in the pre-rotated area. */
  function ProjectionFor(u: FloatUnit, display: Size, video: Size, rotate: bool): DisplayProjection {
    var area := if rotate then Transposed(video) else video;
    DisplayProjection(
      if rotate then Orientation90 else Orientation0,
      Rect(0, 0, display.width, display.height),
      DisplayRect(Letterbox(u, display, area), area))
  }

  /** A rectangle of the pre-rotated area, as it lands on the surface, up to mirroring. */
  function OnSurface(p: DisplayProjection): Rect {
    match p.orientation
    case Orientation0 => p.displayRect
    case Orientation90 => Rect(p.displayRect.top, p.displayRect.left, p.displayRect.bottom, p.displayRect.right)
  }

  /** Rotated or not, what lands on the surface lies on it, centred, and spans it one way. */
  lemma ProjectionFitsSurface(u: FloatUnit, display: Size, video: Size, rotate: bool)
    requires Faithful(u) && InRange(display) && InRange(video)
    ensures var p := ProjectionFor(u, display, video, rotate);
      && p.layerStackRect == Rect(0, 0, display.width, display.height)
      && exists out: Size :: Touches(out, video) && CentredIn(OnSurface(p), out, video)
  {
    hide Letterbox, DisplayRect, Faithful;
    var area := if rotate then Transposed(video) else video;
    FitsUnderAnyRounding(u, display, area);
    var out := Letterbox(u, display, area);
    var onSurface := if rotate then Transposed(out) else out;
    assert Touches(onSurface, video) && CentredIn(OnSurface(ProjectionFor(u, display, video, rotate)), onSurface, video);
  }

  /** r is centred in the area, and its sides are within one pixel of those of the display scaled to just fit it. */
  predicate ShapedLike(r: Rect, display: Size, area: Size)
    requires display.width > 0 && display.height > 0
  {
    var exact := Scaled(display, area);
    && r.left <= r.right && r.top <= r.bottom
    && -1 <= (r.right - r.left) as int - exact.width <= 1 && -1 <= (r.bottom - r.top) as int - exact.height <= 1
    && 0 <= (area.width - r.right) - r.left <= 1 && 0 <= (area.height - r.bottom) - r.top <= 1
  }

  /** The scaled display, side by side. */
  lemma ScaledSides(display: Size, area: Size)
    requires display.width > 0 && display.height > 0 && area.width > 0 && area.height > 0
    ensures var s := MinReal(area.width as real / display.width as real, area.height as real / display.height as real);
      Scaled(display, area) == Size((s * display.width as real).Floor, (s * display.height as real).Floor)
  {
    hide MinReal;
    var sw, sh := ScaledSizeSides(display, area);
  }

  /**
   The orientation is 90 degrees exactly when rotating, the whole layer stack is
   shown, and the rectangle has the display's shape in the area whose sides are
   exchanged exactly when rotating.
   */
  predicate KeepsShape(p: DisplayProjection, display: Size, video: Size, rotate: bool)
    requires display.width > 0 && display.height > 0
  {
    && p.orientation == (if rotate then Orientation90 else Orientation0)
    && p.layerStackRect == Rect(0, 0, display.width, display.height)
    && ShapedLike(p.displayRect, display, if rotate then Size(video.height, video.width) else video)
  }

  /** The sizes are below 2^23 and the rounded product is in the range of uint32_t. */
  predicate Convertible(u: FloatUnit, display: Size, video: Size, rotate: bool) {
    && InRange(display) && InRange(video)
    && u.mul((if rotate then video.height else video.width) as real, Aspect(u, display)) < U32 as real
  }

  /** Rotated or not, and for every faithful rounding, the projection keeps the display's shape to the pixel. */
  lemma ProjectionKeepsShape(u: FloatUnit, display: Size, video: Size, rotate: bool)
    requires Faithful(u) && Convertible(u, display, video, rotate)
    ensures KeepsShape(ProjectionFor(u, display, video, rotate), display, video, rotate)
  {
    hide Letterbox, DisplayRect, Faithful, Aspect, ShapedLike;
    var area := if rotate then Size(video.height, video.width) else video;
    LetterboxShaped(u, display, area);
  }

  lemma LetterboxShaped(u: FloatUnit, display: Size, area: Size)
    requires Faithful(u) && InRange(display) && InRange(area)
    requires u.mul(area.width as real, Aspect(u, display)) < U32 as real
    ensures ShapedLike(DisplayRect(Letterbox(u, display, area), area), display, area)
  {
    hide Letterbox, DisplayRect, Faithful, Aspect, Scaled;
    FitsUnderAnyRounding(u, display, area);
    WithinOnePixel(u, display, area);
  }

  /** In exact arithmetic the rectangle's cross-multiplied aspect error is below the display's sides, in both orientations. */
  lemma ExactProjectionShape(display: Size, video: Size, rotate: bool)
    requires display.width > 0 && display.height > 0
    requires 0 < video.width < U32 && 0 < video.height < U32
    ensures var r := ProjectionFor(ExactUnit(Truncated), display, video, rotate).displayRect;
      var error := (r.right - r.left) * display.height - (r.bottom - r.top) * display.width;
      && 0 < error + display.height && error < display.width
  {
    hide Letterbox, DisplayRect, Scaled, ExactUnit, Truncated;
    var area := if rotate then Size(video.height, video.width) else video;
    UnboundedLetterbox(display, area);
    ScaledShape(display, area);
  }

  class Transaction {
    var projection: Option<DisplayProjection>

    constructor ()
      ensures projection == None
    {
      projection := None;
    }
  }

  class VirtualDisplayManager {
    var gVideoWidth: nat
    var gVideoHeight: nat
    const gRotate: bool

    /** The size defaults. */
    constructor (width: nat, height: nat, rotate: bool, mainDpyInfo: Size)
      ensures Size(gVideoWidth, gVideoHeight) == VideoSize(Size(width, height), mainDpyInfo)
      ensures gVideoWidth == if width == 0 then mainDpyInfo.width - mainDpyInfo.width % 2 else width
      ensures gVideoHeight == if height == 0 then mainDpyInfo.height - mainDpyInfo.height % 2 else height
      ensures gRotate == rotate
    {
      gVideoWidth, gVideoHeight, gRotate := width, height, rotate;
      if width == 0 {
        gVideoWidth := FloorToEven(mainDpyInfo.width);
      }
      if height == 0 {
        gVideoHeight := FloorToEven(mainDpyInfo.height);
      }
    }

    method SetDisplayProjection(u: FloatUnit, t: Transaction, mainDpyInfo: Size)
      modifies t
      ensures t.projection == Some(ProjectionFor(u, mainDpyInfo, Size(gVideoWidth, gVideoHeight), gRotate))
      ensures Faithful(u) && Convertible(u, mainDpyInfo, Size(gVideoWidth, gVideoHeight), gRotate) ==>
                KeepsShape(t.projection.value, mainDpyInfo, Size(gVideoWidth, gVideoHeight), gRotate)
    {
      hide Faithful, KeepsShape;
      var layerStackRect := Rect(0, 0, mainDpyInfo.width, mainDpyInfo.height);
      var displayAspect := u.div(mainDpyInfo.height as real, mainDpyInfo.width as real);
      var videoWidth, videoHeight: nat;
      if !gRotate {
        videoWidth := gVideoWidth;
        videoHeight := gVideoHeight;
      } else {
        videoWidth := gVideoHeight;
        videoHeight := gVideoWidth;
      }
      var outWidth, outHeight: nat;
      if videoHeight > u.toU32(u.mul(videoWidth as real, displayAspect)) {
        outWidth := videoWidth;
        outHeight := u.toU32(u.mul(videoWidth as real, displayAspect));
      } else {
        outHeight := videoHeight;
        outWidth := u.toU32(u.div(videoHeight as real, displayAspect));
      }
      assert Size(outWidth, outHeight) == Letterbox(u, mainDpyInfo, Size(videoWidth, videoHeight)) by {
        hide DisplayRect;
      }
      hide Letterbox;
      var offX := (videoWidth - outWidth) % U32 / 2;
      var offY := (videoHeight - outHeight) % U32 / 2;
      var displayRect := Rect(offX, offY, (offX + outWidth) % U32, (offY + outHeight) % U32);
      t.projection := Some(DisplayProjection(
        if gRotate then Orientation90 else Orientation0, layerStackRect, displayRect));
      if Faithful(u) && Convertible(u, mainDpyInfo, Size(gVideoWidth, gVideoHeight), gRotate) {
        ProjectionKeepsShape(u, mainDpyInfo, Size(gVideoWidth, gVideoHeight), gRotate);
      }
    }
  }
}
