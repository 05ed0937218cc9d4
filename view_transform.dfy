/**
 * The editor's view transform (scale and translation), the letterbox fit of
 * the image inside the canvas, and the maps between viewport pixels and
 * image pixels that rendering and pointer input use.
 *
 * Rendering applies translate(tx, ty) then scale(s), so a drawing-space point
 * u appears at viewport position t + s*u. The image is drawn at the fit's
 * offset with the fit's size, so image pixel p lands at drawing-space
 * offset + p * draw / img.
 */
module ViewTransform {
  import opened Options
  import opened Geometry

  const MinScale: real := 0.1
  const MaxScale: real := 10.0

  datatype View = View(scale: real, tx: real, ty: real)

  /** The transform resetView restores. */
  const Identity: View := View(1.0, 0.0, 0.0)

  /** The bound the editor keeps on the zoom level. */
  predicate ScaleInRange(v: View)
  {
    MinScale <= v.scale <= MaxScale
  }

  function Min(a: real, b: real): real
  {
    if a <= b then a else b
  }

  function Max(a: real, b: real): real
  {
    if a >= b then a else b
  }

  /** Math.max(0.1, Math.min(10, s)). */
  function ClampScale(s: real): (r: real)
    ensures MinScale <= r <= MaxScale
    ensures MinScale <= s <= MaxScale ==> r == s
    ensures s < MinScale ==> r == MinScale
    ensures s > MaxScale ==> r == MaxScale
  {
    Max(MinScale, Min(MaxScale, s))
  }

  /**
   * zoom(factor, centerX?, centerY?): multiply the scale by factor and clamp;
   * with a center, move the translation so that the drawing-space point under
   * the center keeps its place.
   */
  function Zoomed(v: View, factor: real, center: Option<(real, real)>): (r: View)
    requires v.scale > 0.0
    ensures ScaleInRange(r)
    ensures r.scale == ClampScale(v.scale * factor)
    ensures center.None? ==> r.tx == v.tx && r.ty == v.ty
  {
    var s := ClampScale(v.scale * factor);
    match center
    case None => View(s, v.tx, v.ty)
    case Some((cx, cy)) => View(s, cx - (cx - v.tx) * (s / v.scale), cy - (cy - v.ty) * (s / v.scale))
  }

  /** The drawing-space coordinate under viewport coordinate c along one axis with translation t. */
  function Unproject(c: real, t: real, s: real): real
    requires s > 0.0
  {
    (c - t) / s
  }

  lemma UnprojectAfterZoom(c: real, t: real, s: real, s': real)
    requires s > 0.0 && s' > 0.0
    ensures Unproject(c, c - (c - t) * (s' / s), s') == Unproject(c, t, s)
  {
    var t' := c - (c - t) * (s' / s);
    assert c - t' == (c - t) * (s' / s);
    assert (c - t') / s' == (c - t) / s by {
      assert ((c - t) * (s' / s)) / s' == (c - t) * ((s' / s) / s');
      assert (s' / s) / s' == 1.0 / s;
    }
  }

  /**
   * Zooming about a center keeps the drawing-space point under the center
   * fixed, separately along X and Y, whatever the factor and including when
   * the clamp changes the factor actually applied.
   */
  lemma ZoomKeepsCenterFixed(v: View, factor: real, cx: real, cy: real)
    requires v.scale > 0.0
    ensures var r := Zoomed(v, factor, Some((cx, cy)));
      Unproject(cx, r.tx, r.scale) == Unproject(cx, v.tx, v.scale) &&
      Unproject(cy, r.ty, r.scale) == Unproject(cy, v.ty, v.scale)
  {
    var s' := ClampScale(v.scale * factor);
    UnprojectAfterZoom(cx, v.tx, v.scale, s');
    UnprojectAfterZoom(cy, v.ty, v.scale, s');
  }

  /** handleWheel: a wheel turn away from the user zooms out by 0.9, any other in by 1.1. */
  function WheelFactor(deltaY: real): (f: real)
    ensures deltaY > 0.0 ==> f == 0.9
    ensures deltaY <= 0.0 ==> f == 1.1
  {
    if deltaY > 0.0 then 0.9 else 1.1
  }

  // ---------------------------------------------------------------------
  // Letterbox fit

  /** Width and height in pixels. */
  datatype Size = Size(w: real, h: real)

  predicate PositiveSize(sz: Size)
  {
    sz.w > 0.0 && sz.h > 0.0
  }

  /** Where the image is drawn in drawing space: its size and its top-left offset. */
  datatype Fit = Fit(drawW: real, drawH: real, offX: real, offY: real)

  predicate NonEmptyFit(f: Fit)
  {
    f.drawW > 0.0 && f.drawH > 0.0
  }

  lemma WideImageFits(img: Size, canvas: Size, s: real)
    requires PositiveSize(img) && PositiveSize(canvas) && s > 0.0
    requires img.w / img.h > canvas.w / canvas.h
    ensures (canvas.w / s) / (img.w / img.h) <= canvas.h / s
  {
    var a := img.w / img.h;
    var bw, bh := canvas.w / s, canvas.h / s;
    assert bw / bh == canvas.w / canvas.h by {
      assert bw * canvas.h == bh * canvas.w;
    }
    assert bw < a * bh;
    assert bw / a < bh by {
      assert (bw / a) * a == bw;
    }
  }

  lemma TallImageFits(img: Size, canvas: Size, s: real)
    requires PositiveSize(img) && PositiveSize(canvas) && s > 0.0
    requires img.w / img.h <= canvas.w / canvas.h
    ensures (canvas.h / s) * (img.w / img.h) <= canvas.w / s
  {
    var a := img.w / img.h;
    var bw, bh := canvas.w / s, canvas.h / s;
    assert bw / bh == canvas.w / canvas.h by {
      assert bw * canvas.h == bh * canvas.w;
    }
    assert a <= bw / bh;
    assert bh * a <= bh * (bw / bh);
  }

  /**
   * The fit block shared by drawImage and canvasToImageCoords, as written:
   * the image is letterboxed into the box canvas / s, filling the box's width
   * when the image is relatively wider than the canvas and its height
   * otherwise, centred along the other axis.
   */
  function LetterboxFit(img: Size, canvas: Size, s: real): (f: Fit)
    requires PositiveSize(img) && PositiveSize(canvas) && s > 0.0
    ensures NonEmptyFit(f)
    ensures f.offX >= 0.0 && f.offY >= 0.0
    ensures 2.0 * f.offX + f.drawW == canvas.w / s
    ensures 2.0 * f.offY + f.drawH == canvas.h / s
    ensures f.drawW * img.h == f.drawH * img.w
    ensures f.offX == 0.0 || f.offY == 0.0
  {
    var imgAspect := img.w / img.h;
    var canvasAspect := canvas.w / canvas.h;
    if imgAspect > canvasAspect then
      var drawW := canvas.w / s;
      var drawH := drawW / imgAspect;
      WideImageFits(img, canvas, s);
      assert drawH * imgAspect == drawW;
      Fit(drawW, drawH, 0.0, (canvas.h / s - drawH) / 2.0)
    else
      var drawH := canvas.h / s;
      var drawW := drawH * imgAspect;
      TallImageFits(img, canvas, s);
      Fit(drawW, drawH, (canvas.w / s - drawW) / 2.0, 0.0)
  }

  // ---------------------------------------------------------------------
  // Image <-> viewport

  /** Along one axis, a coordinate inside the image is drawn inside the image's on-screen extent. */
  lemma AxisWithin(n: real, t: real, s: real, off: real, draw: real, extent: real)
    requires s > 0.0 && draw > 0.0 && extent > 0.0
    ensures 0.0 <= n <= extent ==> t + s * off <= t + s * (off + n * (draw / extent)) <= t + s * (off + draw)
  {
    if 0.0 <= n <= extent {
      var k := draw / extent;
      assert 0.0 <= n * k <= extent * k;
      assert extent * k == draw;
    }
  }

  /** drawAnnotation composed with the canvas transform: image pixel p to viewport coordinates. */
  function ImageToViewport(v: View, f: Fit, img: Size, p: Pt): (real, real)
    requires PositiveSize(img)
  {
    (v.tx + v.scale * (f.offX + p.x as real * (f.drawW / img.w)),
     v.ty + v.scale * (f.offY + p.y as real * (f.drawH / img.h)))
  }

  /**
   * The unrounded image coordinate under viewport coordinate c along one
   * axis: the inverse of the drawing map u |-> t + s * (off + u * draw / extent).
   */
  function ToImageAxis(c: real, t: real, s: real, off: real, draw: real, extent: real): (u: real)
    requires s > 0.0 && draw > 0.0 && extent > 0.0
    ensures t + s * (off + u * (draw / extent)) == c
  {
    var u := ((c - t) / s - off) * (extent / draw);
    assert u * (draw / extent) == (c - t) / s - off by {
      assert (extent / draw) * (draw / extent) == 1.0;
    }
    u
  }

  /** Along one axis, a viewport coordinate on the drawn image converts to a coordinate inside the image. */
  lemma AxisInverseWithin(c: real, t: real, s: real, off: real, draw: real, extent: real)
    requires s > 0.0 && draw > 0.0 && extent > 0.0
    ensures t + s * off <= c <= t + s * (off + draw) ==> 0.0 <= ToImageAxis(c, t, s, off, draw, extent) <= extent
  {
    if t + s * off <= c <= t + s * (off + draw) {
      var w := (c - t) / s - off;
      assert (c - t) / s * s == c - t;
      assert 0.0 <= w <= draw;
      assert w * (extent / draw) <= draw * (extent / draw);
      assert draw * (extent / draw) == extent;
    }
  }

  /** Math.round: the nearest integer, halves rounded up. */
  function Round(x: real): (r: int)
    ensures x - 0.5 < r as real <= x + 0.5
  {
    (x + 0.5).Floor
  }

  lemma RoundInt(n: int)
    ensures Round(n as real) == n
  {
  }

  /** canvasToImageCoords once an image is loaded: viewport coordinates to the nearest image pixel. */
  function ViewportToImage(v: View, f: Fit, img: Size, cx: real, cy: real): Pt
    requires v.scale > 0.0 && NonEmptyFit(f) && PositiveSize(img)
  {
    Pt(Round(ToImageAxis(cx, v.tx, v.scale, f.offX, f.drawW, img.w)),
       Round(ToImageAxis(cy, v.ty, v.scale, f.offY, f.drawH, img.h)))
  }

  /** A pixel inside the image is drawn inside the image's on-screen rectangle. */
  lemma PixelDrawnOnImage(v: View, f: Fit, img: Size, p: Pt)
    requires v.scale > 0.0 && NonEmptyFit(f) && PositiveSize(img)
    ensures var c := ImageToViewport(v, f, img, p);
      (0 <= p.x && p.x as real <= img.w ==> v.tx + v.scale * f.offX <= c.0 <= v.tx + v.scale * (f.offX + f.drawW)) &&
      (0 <= p.y && p.y as real <= img.h ==> v.ty + v.scale * f.offY <= c.1 <= v.ty + v.scale * (f.offY + f.drawH))
  {
    var c := ImageToViewport(v, f, img, p);
    assert c.0 == v.tx + v.scale * (f.offX + p.x as real * (f.drawW / img.w));
    assert c.1 == v.ty + v.scale * (f.offY + p.y as real * (f.drawH / img.h));
    AxisWithin(p.x as real, v.tx, v.scale, f.offX, f.drawW, img.w);
    AxisWithin(p.y as real, v.ty, v.scale, f.offY, f.drawH, img.h);
  }

  /** A click on the drawn image converts to a pixel inside the image, up to half a pixel of rounding. */
  lemma ClickOnImageIsInImage(v: View, f: Fit, img: Size, cx: real, cy: real)
    requires v.scale > 0.0 && NonEmptyFit(f) && PositiveSize(img)
    ensures var p := ViewportToImage(v, f, img, cx, cy);
      (v.tx + v.scale * f.offX <= cx <= v.tx + v.scale * (f.offX + f.drawW) ==> 0 <= p.x && p.x as real <= img.w + 0.5) &&
      (v.ty + v.scale * f.offY <= cy <= v.ty + v.scale * (f.offY + f.drawH) ==> 0 <= p.y && p.y as real <= img.h + 0.5)
  {
    AxisInverseWithin(cx, v.tx, v.scale, f.offX, f.drawW, img.w);
    AxisInverseWithin(cy, v.ty, v.scale, f.offY, f.drawH, img.h);
  }

  lemma AxisRoundTrip(n: int, t: real, s: real, off: real, draw: real, extent: real)
    requires s > 0.0 && draw > 0.0 && extent > 0.0
    ensures ToImageAxis(t + s * (off + n as real * (draw / extent)), t, s, off, draw, extent) == n as real
  {
    var k := draw / extent;
    var c := t + s * (off + n as real * k);
    assert (c - t) / s == off + n as real * k;
    assert (n as real * k) * (extent / draw) == n as real * (k * (extent / draw));
    assert k * (extent / draw) == 1.0;
  }

  /**
   * Converting the viewport position where image pixel p is drawn gives back
   * exactly p, for every transform and every fit the two maps share.
   */
  lemma ImageRoundTrip(v: View, f: Fit, img: Size, p: Pt)
    requires v.scale > 0.0 && NonEmptyFit(f) && PositiveSize(img)
    ensures var c := ImageToViewport(v, f, img, p);
      ViewportToImage(v, f, img, c.0, c.1) == p
  {
    var c := ImageToViewport(v, f, img, p);
    AxisRoundTrip(p.x, v.tx, v.scale, f.offX, f.drawW, img.w);
    AxisRoundTrip(p.y, v.ty, v.scale, f.offY, f.drawH, img.h);
    assert ToImageAxis(c.0, v.tx, v.scale, f.offX, f.drawW, img.w) == p.x as real;
    assert ToImageAxis(c.1, v.ty, v.scale, f.offY, f.drawH, img.h) == p.y as real;
    RoundInt(p.x);
    RoundInt(p.y);
  }

  lemma WithinHalf(c: real, back: real, m: real, e: real)
    requires m > 0.0 && -0.5 < e <= 0.5 && back - c == m * e
    ensures c - m / 2.0 < back <= c + m / 2.0
  {
    assert -(m / 2.0) < m * e <= m / 2.0;
  }

  lemma AxisNearest(c: real, t: real, s: real, off: real, draw: real, extent: real)
    requires s > 0.0 && draw > 0.0 && extent > 0.0
    ensures var n := Round(ToImageAxis(c, t, s, off, draw, extent));
      var back := t + s * (off + n as real * (draw / extent));
      var half := s * (draw / extent) / 2.0;
      c - half < back <= c + half
  {
    var u := ToImageAxis(c, t, s, off, draw, extent);
    var n := Round(u);
    var k := draw / extent;
    assert k > 0.0;
    assert c == t + s * (off + u * k);
    var back := t + s * (off + n as real * k);
    assert back - c == (s * k) * (n as real - u) by {
      assert s * (off + n as real * k) - s * (off + u * k) == (s * k) * (n as real - u);
    }
    WithinHalf(c, back, s * k, n as real - u);
  }

  /**
   * The other direction of the round trip: the pixel a viewport point converts
   * to is drawn within half a pixel's on-screen size of that point.
   */
  lemma ViewportRoundTrip(v: View, f: Fit, img: Size, cx: real, cy: real)
    requires v.scale > 0.0 && NonEmptyFit(f) && PositiveSize(img)
    ensures var c := ImageToViewport(v, f, img, ViewportToImage(v, f, img, cx, cy));
      cx - v.scale * (f.drawW / img.w) / 2.0 < c.0 <= cx + v.scale * (f.drawW / img.w) / 2.0 &&
      cy - v.scale * (f.drawH / img.h) / 2.0 < c.1 <= cy + v.scale * (f.drawH / img.h) / 2.0
  {
    var p := ViewportToImage(v, f, img, cx, cy);
    assert p.x == Round(ToImageAxis(cx, v.tx, v.scale, f.offX, f.drawW, img.w));
    assert p.y == Round(ToImageAxis(cy, v.ty, v.scale, f.offY, f.drawH, img.h));
    AxisNearest(cx, v.tx, v.scale, f.offX, f.drawW, img.w);
    AxisNearest(cy, v.ty, v.scale, f.offY, f.drawH, img.h);
  }

  // ---------------------------------------------------------------------
  // Which fit: as written the box is canvas / scale; the scale then
  // cancels against the canvas transform.

  /**
   * As written, the image's on-screen size s * draw does not depend on the
   * scale s at all: the fit shrinks by 1/s exactly as the canvas transform
   * magnifies by s.
   */
  lemma ScreenSizeIgnoresScaleAsWritten(img: Size, canvas: Size, s: real)
    requires PositiveSize(img) && PositiveSize(canvas) && s > 0.0
    ensures var f, g := LetterboxFit(img, canvas, s), LetterboxFit(img, canvas, 1.0);
      s * f.drawW == g.drawW && s * f.drawH == g.drawH &&
      s * f.offX == g.offX && s * f.offY == g.offY
  {
    var a := img.w / img.h;
    if a > canvas.w / canvas.h {
      assert s * ((canvas.w / s) / a) == (canvas.w / 1.0) / a;
      assert s * ((canvas.h / s - (canvas.w / s) / a) / 2.0) == (canvas.h / 1.0 - (canvas.w / 1.0) / a) / 2.0;
    } else {
      assert s * ((canvas.h / s) * a) == (canvas.h / 1.0) * a;
      assert s * ((canvas.w / s - (canvas.h / s) * a) / 2.0) == (canvas.w / 1.0 - (canvas.h / 1.0) * a) / 2.0;
    }
  }

  /**
   * As written, one wheel step moves the image pixel under the cursor: a
   * 100 by 100 image on a 100 by 100 canvas, zoomed in by the wheel (factor
   * 1.1) about (50, 50) from the identity view, has pixel (50, 50) under the
   * cursor before and pixel (55, 55) after.
   */
  lemma ZoomMovesImagePointAsWritten()
    ensures var img := Size(100.0, 100.0);
      var v := Identity;
      var w := Zoomed(v, WheelFactor(-1.0), Some((50.0, 50.0)));
      ViewportToImage(v, LetterboxFit(img, img, v.scale), img, 50.0, 50.0) == Pt(50, 50) &&
      ViewportToImage(w, LetterboxFit(img, img, w.scale), img, 50.0, 50.0) == Pt(55, 55)
  {
    var img := Size(100.0, 100.0);
    var w := Zoomed(Identity, WheelFactor(-1.0), Some((50.0, 50.0)));
    assert w == View(1.1, -5.0, -5.0);
    assert LetterboxFit(img, img, 1.0) == Fit(100.0, 100.0, 0.0, 0.0);
    var d := 100.0 / 1.1;
    assert LetterboxFit(img, img, 1.1) == Fit(d, d, 0.0, 0.0);
    assert ToImageAxis(50.0, -5.0, 1.1, 0.0, d, 100.0) == 55.0;
    RoundInt(50);
    RoundInt(55);
  }

  /**
   * The evidently intended fit: letterboxed into the canvas itself, computed
   * independently of the zoom level so that the canvas transform alone
   * magnifies.
   */
  function ScreenFit(img: Size, canvas: Size): (f: Fit)
    requires PositiveSize(img) && PositiveSize(canvas)
    ensures NonEmptyFit(f) && f.offX >= 0.0 && f.offY >= 0.0
    ensures 2.0 * f.offX + f.drawW == canvas.w && 2.0 * f.offY + f.drawH == canvas.h
    ensures f.drawW * img.h == f.drawH * img.w
  {
    LetterboxFit(img, canvas, 1.0)
  }

  /**
   * With the scale-independent fit, zooming about a cursor position keeps
   * the image pixel under the cursor where it is, for every factor, and
   * even the unrounded image coordinate is unchanged.
   */
  lemma ZoomKeepsImagePointUnderCursor(v: View, factor: real, img: Size, canvas: Size, cx: real, cy: real)
    requires v.scale > 0.0 && PositiveSize(img) && PositiveSize(canvas)
    ensures var f := ScreenFit(img, canvas);
      var w := Zoomed(v, factor, Some((cx, cy)));
      ToImageAxis(cx, w.tx, w.scale, f.offX, f.drawW, img.w) == ToImageAxis(cx, v.tx, v.scale, f.offX, f.drawW, img.w) &&
      ToImageAxis(cy, w.ty, w.scale, f.offY, f.drawH, img.h) == ToImageAxis(cy, v.ty, v.scale, f.offY, f.drawH, img.h) &&
      ViewportToImage(w, f, img, cx, cy) == ViewportToImage(v, f, img, cx, cy)
  {
    ZoomKeepsCenterFixed(v, factor, cx, cy);
  }
}
