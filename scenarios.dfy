/**
 * Client code driving an editor session through whole gestures, using only
 * the session's contracts.
 */
module Scenarios {
  import opened Options
  import opened Geometry
  import opened ViewTransform
  import opened Annotations
  import opened Editor

  /** A polygon-tool click on the viewport position where image pixel p is drawn. */
  method ClickPolygonAt(e: EditorSession, p: Pt, response: Response) returns (request: Option<Request>)
    requires e.Valid() && e.currentTool == PolygonMode && e.hasImage && e.imageSize.Some?
    modifies e
    ensures e.Valid() && e.currentTool == PolygonMode && e.hasImage && e.imageSize == old(e.imageSize)
    ensures e.currentLabel == old(e.currentLabel)
    ensures var ring := old(e.polygonPoints) + [p];
      if ClosesRing(ring) then
        request == Some(CreatePolygon(e.currentLabel, ring, Area(ring))) &&
        e.polygonPoints == (if response.Accepted? then [] else ring)
      else
        request == None && e.polygonPoints == ring
  {
    var c := e.ImageToCanvas(p);
    request := e.HandleMouseDown(c.0, c.1, response);
  }

  /**
   * The rings of the auto-close scenario: three corners of a k by k square do
   * not close, a fourth vertex (d, d) within the close radius of the origin
   * does, and the closed ring covers half the square.
   */
  lemma RingOfTheScenario(k: int, d: int)
    requires k >= 8 && 0 <= d <= 7
    ensures !ClosesRing([Pt(0, 0), Pt(k, 0), Pt(k, k)])
    ensures ClosesRing([Pt(0, 0), Pt(k, 0), Pt(k, k), Pt(d, d)])
    ensures Area([Pt(0, 0), Pt(k, 0), Pt(k, k), Pt(d, d)]) == (k * k) as real / 2.0
  {
    CornersDoNotClose(k);
    DiagonalCloses(k, d);
    AutoClosedRingArea(k, d);
  }

  /** A fourth vertex (d, d) with 0 <= d <= 7 lies within the close radius of the first vertex (0, 0). */
  lemma DiagonalCloses(k: int, d: int)
    requires 0 <= d <= 7
    ensures ClosesRing([Pt(0, 0), Pt(k, 0), Pt(k, k), Pt(d, d)])
  {
    assert d * d <= 49 by {
      assert d * d <= 7 * d <= 49;
    }
    assert DistSq(Pt(d, d), Pt(0, 0)) == 2 * (d * d) < 100;
  }

  /** A polygon-tool click that does not close the ring appends its pixel and sends nothing. */
  method ClickNoClose(e: EditorSession, p: Pt, response: Response)
    requires e.Valid() && e.currentTool == PolygonMode && e.hasImage && e.imageSize.Some?
    requires !ClosesRing(e.polygonPoints + [p])
    modifies e
    ensures e.Valid() && e.currentTool == PolygonMode && e.hasImage && e.imageSize.Some?
    ensures e.currentLabel == old(e.currentLabel)
    ensures e.polygonPoints == old(e.polygonPoints) + [p]
  {
    var request := ClickPolygonAt(e, p, response);
  }

  /**
   * From an empty polygon in progress, clicking where pixels (0, 0), (k, 0)
   * and (k, k) are drawn leaves those three vertices in progress.
   */
  method ClickThreeCorners(e: EditorSession, k: int, response: Response)
    requires e.Valid() && e.currentTool == PolygonMode && e.hasImage && e.imageSize.Some?
    requires e.polygonPoints == [] && k >= 8
    modifies e
    ensures e.Valid() && e.currentTool == PolygonMode && e.hasImage && e.imageSize.Some?
    ensures e.currentLabel == old(e.currentLabel)
    ensures e.polygonPoints == [Pt(0, 0), Pt(k, 0), Pt(k, k)]
  {
    assert e.polygonPoints + [Pt(0, 0)] == [Pt(0, 0)];
    ClickNoClose(e, Pt(0, 0), response);
    assert e.polygonPoints + [Pt(k, 0)] == [Pt(0, 0), Pt(k, 0)];
    ClickNoClose(e, Pt(k, 0), response);
    var corners := [Pt(0, 0), Pt(k, 0), Pt(k, k)];
    CornersDoNotClose(k);
    assert e.polygonPoints + [Pt(k, k)] == corners;
    ClickNoClose(e, Pt(k, k), response);
  }

  /** Three corners (0, 0), (k, 0), (k, k) of a square with side k >= 8 do not close the ring. */
  lemma CornersDoNotClose(k: int)
    requires k >= 8
    ensures !ClosesRing([Pt(0, 0), Pt(k, 0), Pt(k, k)])
  {
    assert k * k >= 64 by {
      assert k * k >= 8 * k >= 64;
    }
    assert DistSq(Pt(k, k), Pt(0, 0)) == 2 * (k * k) >= 128;
  }

  /**
   * Clicking, with the polygon tool, the viewport positions where image
   * pixels (0, 0), (k, 0), (k, k) and then (d, d) near the first vertex are
   * drawn issues one request, on the fourth click: the four-vertex ring,
   * closing click included, with area k * k / 2 (for k = 100 and d = 2,
   * area 5000). If the service rejects it, the ring stays in progress.
   */
  method AutoCloseScenario(canvasSize: Size, img: Size, k: int, d: int, response: Response)
    requires PositiveSize(canvasSize) && PositiveSize(img)
    requires k >= 8 && 0 <= d <= 7
  {
    var e := new EditorSession(canvasSize);
    e.SelectImage(true, Some([]));
    e.ImageDecoded(img);
    e.SetTool(PolygonMode);
    ClickThreeCorners(e, k, response);
    RingOfTheScenario(k, d);
    var ring := [Pt(0, 0), Pt(k, 0), Pt(k, k), Pt(d, d)];
    assert e.polygonPoints + [Pt(d, d)] == ring;
    var request := ClickPolygonAt(e, Pt(d, d), response);
    assert request == Some(CreatePolygon(Lymphocyte, ring, (k * k) as real / 2.0));
    assert response.Rejected? ==> e.polygonPoints == ring;
  }

  /**
   * A drag in pan mode keeps the drawing-space point under the pointer where
   * it was grabbed, and a move after the button is released changes nothing.
   */
  method DragScenario(canvasSize: Size, x0: real, y0: real, x1: real, y1: real, x2: real, y2: real, response: Response)
    requires PositiveSize(canvasSize)
  {
    var e := new EditorSession(canvasSize);
    e.Zoom(2.0, Some((x0, y0)));
    var s, t0x, t0y := e.scale, e.translateX, e.translateY;
    var request := e.HandleMouseDown(x0, y0, response);
    assert request == None && e.isDragging;
    e.HandleMouseMove(x1, y1);
    assert e.scale == s;
    assert Unproject(x1, e.translateX, s) == Unproject(x0, t0x, s);
    assert Unproject(y1, e.translateY, s) == Unproject(y0, t0y, s);
    var tx, ty := e.translateX, e.translateY;
    e.HandleMouseUp();
    e.HandleMouseMove(x2, y2);
    assert e.translateX == tx && e.translateY == ty;
  }
}
