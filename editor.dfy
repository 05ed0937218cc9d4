/**
 * The editor session: the state the annotation page keeps in globals (tool,
 * label, selected image, view transform, drag anchor, polygon in progress,
 * annotation store) and the handlers that change it.
 *
 * Every create or delete is one atomic exchange with the persistence
 * service: the handler returns the request it issues and takes the
 * service's response as a parameter.
 */
module Editor {
  import opened Options
  import opened Geometry
  import opened ViewTransform
  import opened Annotations

  /** The toolbar's modes. */
  datatype Tool = Pan | PointMode | PolygonMode | DeleteMode

  /** A polygon click within this many image pixels of the first vertex closes the ring. */
  const CloseRadius: nat := 10

  /**
   * The in-progress polygon is complete once it has at least three vertices
   * and its newest vertex lies within CloseRadius of its first.
   */
  predicate ClosesRing(points: seq<Pt>)
  {
    |points| >= 3 && WithinRadius(points[|points| - 1], points[0], CloseRadius)
  }

  /**
   * A closing ring has at least three vertices and its newest vertex lies
   * less than CloseRadius from the first along each axis; a newest vertex
   * exactly on the first always closes it.
   */
  lemma ClosesRingBounds(points: seq<Pt>)
    ensures ClosesRing(points) ==> |points| >= 3
    ensures ClosesRing(points) ==> Abs(points[|points| - 1].x - points[0].x) < CloseRadius
    ensures ClosesRing(points) ==> Abs(points[|points| - 1].y - points[0].y) < CloseRadius
    ensures |points| >= 3 && points[|points| - 1] == points[0] ==> ClosesRing(points)
  {
    if |points| >= 3 {
      WithinRadiusBounds(points[|points| - 1], points[0], CloseRadius);
    }
  }

  /**
   * The auto-close examples: after (0, 0), (100, 0), (100, 100), a click at
   * (2, 2) closes the ring, and a fourth click at (30, 40), 50 pixels from
   * the first vertex, does not.
   */
  lemma AutoCloseExamples()
    ensures ClosesRing([Pt(0, 0), Pt(100, 0), Pt(100, 100), Pt(2, 2)])
    ensures !ClosesRing([Pt(0, 0), Pt(100, 0), Pt(100, 100), Pt(30, 40)])
  {
  }

  /**
   * The ring committed by such a closing click keeps the click itself: for
   * (0, 0), (k, 0), (k, k) closed by a click (d, d) on the diagonal, the
   * committed ring has four vertices and the triangle's area k * k / 2
   * (5000 for k = 100 and d = 2).
   */
  lemma AutoClosedRingArea(k: int, d: int)
    ensures Area([Pt(0, 0), Pt(k, 0), Pt(k, k), Pt(d, d)]) == (k * k) as real / 2.0
  {
    ShoelaceOfFour(Pt(0, 0), Pt(k, 0), Pt(k, k), Pt(d, d));
  }

  class EditorSession {
    var currentTool: Tool
    var currentLabel: Label
    /** Whether an image record is selected. */
    var hasImage: bool
    /** The natural size of the decoded image, once it has loaded. */
    var imageSize: Option<Size>
    var canvas: Size
    var scale: real
    var translateX: real
    var translateY: real
    var isDragging: bool
    var dragStartX: real
    var dragStartY: real
    var polygonPoints: seq<Pt>
    var annotations: seq<Annotation>

    ghost predicate Valid()
      reads this
    {
      MinScale <= scale <= MaxScale &&
      PositiveSize(canvas) &&
      (imageSize.Some? ==> PositiveSize(imageSize.value))
    }

    function CurrentView(): View
      reads this
    {
      View(scale, translateX, translateY)
    }

    /** The page's initial state on a canvas of the given size. */
    constructor (canvasSize: Size)
      requires PositiveSize(canvasSize)
      ensures Valid()
      ensures currentTool == Pan && currentLabel == Lymphocyte
      ensures !hasImage && imageSize == None && canvas == canvasSize
      ensures CurrentView() == Identity
      ensures !isDragging && dragStartX == 0.0 && dragStartY == 0.0
      ensures polygonPoints == [] && annotations == []
    {
      currentTool, currentLabel := Pan, Lymphocyte;
      hasImage, imageSize, canvas := false, None, canvasSize;
      scale, translateX, translateY := 1.0, 0.0, 0.0;
      isDragging, dragStartX, dragStartY := false, 0.0, 0.0;
      polygonPoints, annotations := [], [];
    }

    /**
     * resizeCanvas: the canvas takes its container's size, truncated to
     * whole pixels as the canvas's integer width and height attributes
     * store it.
     */
    method ResizeCanvas(width: real, height: real)
      requires Valid() && width >= 1.0 && height >= 1.0
      modifies this`canvas
      ensures Valid() && canvas == Size(width.Floor as real, height.Floor as real)
      ensures canvas.w <= width < canvas.w + 1.0 && canvas.h <= height < canvas.h + 1.0
    {
      canvas := Size(width.Floor as real, height.Floor as real);
    }

    /** setTool: switch mode and drop the polygon in progress without committing it. */
    method SetTool(tool: Tool)
      modifies this`currentTool, this`polygonPoints
      ensures currentTool == tool && polygonPoints == []
    {
      currentTool := tool;
      polygonPoints := [];
    }

    /** The label selector's change handler. */
    method SetLabel(category: Label)
      modifies this`currentLabel
      ensures currentLabel == category
    {
      currentLabel := category;
    }

    // -------------------------------------------------------------------
    // View transform

    method Zoom(factor: real, center: Option<(real, real)>)
      requires Valid()
      modifies this`scale, this`translateX, this`translateY
      ensures Valid()
      ensures CurrentView() == Zoomed(old(CurrentView()), factor, center)
      ensures center.Some? ==>
        Unproject(center.value.0, translateX, scale) == old(Unproject(center.value.0, translateX, scale)) &&
        Unproject(center.value.1, translateY, scale) == old(Unproject(center.value.1, translateY, scale))
    {
      if center.Some? {
        ZoomKeepsCenterFixed(CurrentView(), factor, center.value.0, center.value.1);
      }
      ghost var target := Zoomed(CurrentView(), factor, center);
      var oldScale := scale;
      scale := scale * factor;
      scale := Max(MinScale, Min(MaxScale, scale));
      assert scale == target.scale;
      if center.Some? {
        var (centerX, centerY) := center.value;
        translateX := centerX - (centerX - translateX) * (scale / oldScale);
        translateY := centerY - (centerY - translateY) * (scale / oldScale);
      }
      assert CurrentView() == target;
    }

    /** handleWheel: zoom by 0.9 or 1.1 about the pointer. */
    method HandleWheel(deltaY: real, offsetX: real, offsetY: real)
      requires Valid()
      modifies this`scale, this`translateX, this`translateY
      ensures Valid()
      ensures CurrentView() == Zoomed(old(CurrentView()), WheelFactor(deltaY), Some((offsetX, offsetY)))
    {
      var delta := if deltaY > 0.0 then 0.9 else 1.1;
      Zoom(delta, Some((offsetX, offsetY)));
    }

    method ResetView()
      requires Valid()
      modifies this`scale, this`translateX, this`translateY
      ensures Valid() && CurrentView() == Identity
    {
      scale := 1.0;
      translateX := 0.0;
      translateY := 0.0;
    }

    // -------------------------------------------------------------------
    // Coordinates

    /** The fit drawImage and canvasToImageCoords compute, against the box canvas / scale. */
    function CurrentFit(): (f: Fit)
      reads this
      requires Valid() && imageSize.Some?
      ensures NonEmptyFit(f)
    {
      LetterboxFit(imageSize.value, canvas, scale)
    }

    /**
     * canvasToImageCoords: (0, 0) until an image has decoded, else the
     * pixel drawn nearest the viewport point.
     */
    function CanvasToImageCoords(x: real, y: real): (p: Pt)
      reads this
      requires Valid()
      ensures imageSize.None? ==> p == Pt(0, 0)
      ensures imageSize.Some? ==>
        var img := imageSize.value;
        var f := CurrentFit();
        var back := ImageToViewport(CurrentView(), f, img, p);
        x - scale * (f.drawW / img.w) / 2.0 < back.0 <= x + scale * (f.drawW / img.w) / 2.0 &&
        y - scale * (f.drawH / img.h) / 2.0 < back.1 <= y + scale * (f.drawH / img.h) / 2.0
    {
      match imageSize
      case None => Pt(0, 0)
      case Some(img) =>
        var v, f := CurrentView(), CurrentFit();
        ViewportRoundTrip(v, f, img, x, y);
        ViewportToImage(v, f, img, x, y)
    }

    /** Where drawImage and drawAnnotation put image pixel p on the viewport. */
    function ImageToCanvas(p: Pt): (c: (real, real))
      reads this
      requires Valid() && imageSize.Some?
      ensures CanvasToImageCoords(c.0, c.1) == p
    {
      var img := imageSize.value;
      ImageRoundTrip(CurrentView(), CurrentFit(), img, p);
      ImageToViewport(CurrentView(), CurrentFit(), img, p)
    }

    // -------------------------------------------------------------------
    // Image and store lifecycle

    /** selectImage: a found image record becomes current and its annotations are loaded. */
    method SelectImage(found: bool, reload: Option<seq<Annotation>>)
      modifies this`hasImage, this`annotations
      ensures hasImage == (old(hasImage) || found)
      ensures annotations == if found && reload.Some? then reload.value else old(annotations)
    {
      if found {
        hasImage := true;
        LoadAnnotations(reload);
      }
    }

    /** The image's onload handler: the decoded image becomes current and the view is reset. */
    method ImageDecoded(size: Size)
      requires Valid() && PositiveSize(size)
      modifies this`imageSize, this`scale, this`translateX, this`translateY
      ensures Valid() && imageSize == Some(size) && CurrentView() == Identity
    {
      imageSize := Some(size);
      ResetView();
    }

    /** loadAnnotations: a successful reply replaces the whole store; a failed one leaves it. */
    method LoadAnnotations(reload: Option<seq<Annotation>>)
      modifies this`annotations
      ensures annotations == if reload.Some? then reload.value else old(annotations)
    {
      if reload.Some? {
        annotations := reload.value;
      }
    }

    // -------------------------------------------------------------------
    // Pointer input

    /** handleMouseMove: while dragging, the translation follows the pointer; otherwise nothing. */
    method HandleMouseMove(x: real, y: real)
      modifies this`translateX, this`translateY
      ensures isDragging ==> translateX == x - dragStartX && translateY == y - dragStartY
      ensures !isDragging ==> translateX == old(translateX) && translateY == old(translateY)
    {
      if !isDragging {
        return;
      }
      translateX := x - dragStartX;
      translateY := y - dragStartY;
    }

    /** handleMouseUp: dragging always ends. */
    method HandleMouseUp()
      modifies this`isDragging
      ensures !isDragging
    {
      isDragging := false;
    }

    /** addPointAnnotation: one click commits one point at the converted image pixel. */
    method AddPointAnnotation(x: real, y: real, response: Response) returns (request: Option<Request>)
      requires Valid()
      modifies this`annotations
      ensures !hasImage ==> request == None && annotations == old(annotations)
      ensures hasImage ==> request == Some(CreatePoint(currentLabel, CanvasToImageCoords(x, y)))
      ensures hasImage ==> annotations == AfterResponse(old(annotations), response)
    {
      if !hasImage {
        return None;
      }
      var imgCoords := CanvasToImageCoords(x, y);
      request := Some(CreatePoint(currentLabel, imgCoords));
      Commit(response);
    }

    /** A create or delete's response applied to the store. */
    method Commit(response: Response)
      modifies this`annotations
      ensures annotations == AfterResponse(old(annotations), response)
    {
      if response.Accepted? {
        LoadAnnotations(response.reload);
      }
    }

    /**
     * completePolygon: nothing below three vertices; otherwise commit the
     * ring with its area, and clear it only when the create is accepted.
     */
    method CompletePolygon(response: Response) returns (request: Option<Request>)
      requires Valid()
      modifies this`polygonPoints, this`annotations
      ensures request.Some? ==> request.value.CreatePolygon? && |request.value.ring| >= 3
      ensures |old(polygonPoints)| < 3 || !hasImage ==>
        request == None && polygonPoints == old(polygonPoints) && annotations == old(annotations)
      ensures |old(polygonPoints)| >= 3 && hasImage ==>
        request == Some(CreatePolygon(currentLabel, old(polygonPoints), Area(old(polygonPoints)))) &&
        polygonPoints == (if response.Accepted? then [] else old(polygonPoints)) &&
        annotations == AfterResponse(old(annotations), response)
    {
      if |polygonPoints| < 3 {
        return None;
      }
      var area := CalculatePolygonArea(polygonPoints);
      if !hasImage {
        return None;
      }
      request := Some(CreatePolygon(currentLabel, polygonPoints, area));
      if response.Accepted? {
        polygonPoints := [];
        Commit(response);
      }
    }

    /**
     * addPolygonPoint: append the converted click; when the ring then closes,
     * commit it, closing click included.
     */
    method AddPolygonPoint(x: real, y: real, response: Response) returns (request: Option<Request>)
      requires Valid()
      modifies this`polygonPoints, this`annotations
      ensures var ring := old(polygonPoints) + [CanvasToImageCoords(x, y)];
        if ClosesRing(ring) && hasImage then
          request == Some(CreatePolygon(currentLabel, ring, Area(ring))) &&
          polygonPoints == (if response.Accepted? then [] else ring) &&
          annotations == AfterResponse(old(annotations), response)
        else
          request == None && polygonPoints == ring && annotations == old(annotations)
    {
      var imgCoords := CanvasToImageCoords(x, y);
      polygonPoints := polygonPoints + [imgCoords];
      request := None;
      if |polygonPoints| >= 3 {
        var firstPoint := polygonPoints[0];
        var dx, dy := imgCoords.x - firstPoint.x, imgCoords.y - firstPoint.y;
        if dx * dx + dy * dy < CloseRadius * CloseRadius {
          request := CompletePolygon(response);
        }
      }
    }

    /** deleteAnnotationAt: delete the first annotation, in store order, that the click hits. */
    method DeleteAnnotationAt(x: real, y: real, response: Response) returns (request: Option<Request>)
      requires Valid()
      modifies this`annotations
      ensures var hit := FirstHit(old(annotations), CanvasToImageCoords(x, y));
        if hit.Some? then
          request == Some(DeleteAnnotation(old(annotations)[hit.value].id)) &&
          annotations == AfterResponse(old(annotations), response)
        else
          request == None && annotations == old(annotations)
    {
      var imgCoords := CanvasToImageCoords(x, y);
      var hit := FindAnnotationAt(annotations, imgCoords);
      if hit.None? {
        return None;
      }
      request := Some(DeleteAnnotation(annotations[hit.value].id));
      Commit(response);
    }

    /**
     * handleMouseDown: in pan mode start a drag anchored so that the grabbed
     * point follows the pointer; in the other modes act only when an image
     * is selected. At most one request is issued per click.
     */
    method HandleMouseDown(x: real, y: real, response: Response) returns (request: Option<Request>)
      requires Valid()
      modifies this`isDragging, this`dragStartX, this`dragStartY, this`polygonPoints, this`annotations
      ensures Valid()
      ensures currentTool == Pan ==>
        request == None && isDragging && dragStartX == x - translateX && dragStartY == y - translateY &&
        polygonPoints == old(polygonPoints) && annotations == old(annotations)
      ensures currentTool != Pan ==>
        isDragging == old(isDragging) && dragStartX == old(dragStartX) && dragStartY == old(dragStartY)
      ensures currentTool != Pan && !hasImage ==>
        request == None && polygonPoints == old(polygonPoints) && annotations == old(annotations)
      ensures currentTool == PointMode && hasImage ==>
        request == Some(CreatePoint(currentLabel, CanvasToImageCoords(x, y))) &&
        polygonPoints == old(polygonPoints) && annotations == AfterResponse(old(annotations), response)
      ensures currentTool == PolygonMode && hasImage ==>
        var ring := old(polygonPoints) + [CanvasToImageCoords(x, y)];
        if ClosesRing(ring) then
          request == Some(CreatePolygon(currentLabel, ring, Area(ring))) &&
          polygonPoints == (if response.Accepted? then [] else ring) &&
          annotations == AfterResponse(old(annotations), response)
        else
          request == None && polygonPoints == ring && annotations == old(annotations)
      ensures currentTool == DeleteMode && hasImage ==>
        polygonPoints == old(polygonPoints) &&
        var hit := FirstHit(old(annotations), CanvasToImageCoords(x, y));
        if hit.Some? then
          request == Some(DeleteAnnotation(old(annotations)[hit.value].id)) &&
          annotations == AfterResponse(old(annotations), response)
        else
          request == None && annotations == old(annotations)
    {
      request := None;
      if currentTool == Pan {
        isDragging := true;
        dragStartX := x - translateX;
        dragStartY := y - translateY;
      } else if currentTool == PointMode && hasImage {
        request := AddPointAnnotation(x, y, response);
      } else if currentTool == PolygonMode && hasImage {
        request := AddPolygonPoint(x, y, response);
      } else if currentTool == DeleteMode && hasImage {
        request := DeleteAnnotationAt(x, y, response);
      }
    }
  }
}
